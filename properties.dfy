/** What the assembled submodel map of the Single Particle Model holds,
    for every choice of options. */
module Properties {
  import opened Options
  import opened Submodels
  import opened Assembly
  import opened Geometries

  /** Porosity and convection are chosen independently of the options. */
  lemma AssembledPorosityAndConvection(o: Options, r: Reactions)
    ensures PorosityKey in Assembled(o, r) && Assembled(o, r)[PorosityKey] == ConstantPorosity
    ensures ConvectionKey in Assembled(o, r) && Assembled(o, r)[ConvectionKey] == NoConvection
  {
    AssembledLookup(o, r, PorosityStep, PorosityKey);
    AssembledLookup(o, r, ConvectionStep, ConvectionKey);
  }

  /** Both electrodes use leading-order Ohm's law, whatever the options. */
  lemma AssembledElectrodes(o: Options, r: Reactions)
    ensures NegativeElectrodeKey in Assembled(o, r) && Assembled(o, r)[NegativeElectrodeKey] == OhmLeadingOrder(Negative)
    ensures PositiveElectrodeKey in Assembled(o, r) && Assembled(o, r)[PositiveElectrodeKey] == OhmLeadingOrder(Positive)
  {
    AssembledLookup(o, r, NegativeElectrodeStep, NegativeElectrodeKey);
    AssembledLookup(o, r, PositiveElectrodeStep, PositiveElectrodeKey);
  }

  /** Constant-concentration diffusion is always registered. */
  lemma AssembledDiffusion(o: Options, r: Reactions)
    ensures DiffusionKey in Assembled(o, r) && Assembled(o, r)[DiffusionKey] == ConstantConcentration
  {
    ElectrolyteEntriesSpec(o, r);
    AssembledLookup(o, r, ElectrolyteStep, DiffusionKey);
  }

  /** Inverse Butler-Volmer kinetics in both electrodes exactly when
      surface form is the boolean False, Butler-Volmer kinetics exactly
      otherwise. */
  lemma AssembledInterfaces(o: Options, r: Reactions)
    ensures NegativeInterfaceKey in Assembled(o, r) && PositiveInterfaceKey in Assembled(o, r)
    ensures Assembled(o, r)[NegativeInterfaceKey] == InverseButlerVolmer(Negative, MainReaction) <==> IsFalse(o.surfaceForm)
    ensures Assembled(o, r)[PositiveInterfaceKey] == InverseButlerVolmer(Positive, MainReaction) <==> IsFalse(o.surfaceForm)
    ensures Assembled(o, r)[NegativeInterfaceKey] == ButlerVolmer(Negative, MainReaction) <==> !IsFalse(o.surfaceForm)
    ensures Assembled(o, r)[PositiveInterfaceKey] == ButlerVolmer(Positive, MainReaction) <==> !IsFalse(o.surfaceForm)
  {
    InterfaceEntriesSpec(o);
    AssembledLookup(o, r, InterfaceStep, NegativeInterfaceKey);
    AssembledLookup(o, r, InterfaceStep, PositiveInterfaceKey);
  }

  /** Particle submodels exist exactly for the two recognised particle
      options, and then both electrodes use the same variant. */
  lemma AssembledParticles(o: Options, r: Reactions)
    ensures NegativeParticleKey in Assembled(o, r) <==> EqualsText(o.particle, FickianDiffusion) || EqualsText(o.particle, FastDiffusion)
    ensures PositiveParticleKey in Assembled(o, r) <==> NegativeParticleKey in Assembled(o, r)
    ensures EqualsText(o.particle, FickianDiffusion) ==>
      Assembled(o, r)[NegativeParticleKey] == FickianSingleParticle(Negative) && Assembled(o, r)[PositiveParticleKey] == FickianSingleParticle(Positive)
    ensures EqualsText(o.particle, FastDiffusion) ==>
      Assembled(o, r)[NegativeParticleKey] == FastSingleParticle(Negative) && Assembled(o, r)[PositiveParticleKey] == FastSingleParticle(Positive)
  {
    ParticleEntriesSpec(o);
    AssembledLookup(o, r, ParticleStep, NegativeParticleKey);
    AssembledLookup(o, r, ParticleStep, PositiveParticleKey);
  }

  /** The single leading-order conductivity submodel exists exactly when
      surface form is the boolean False; the per-domain ones exist, for all
      three domains, exactly when it is "differential" or "algebraic",
      each carrying its own domain and the reaction registry. */
  lemma AssembledConductivity(o: Options, r: Reactions, d: Domain)
    ensures ConductivityKey in Assembled(o, r) <==> IsFalse(o.surfaceForm)
    ensures ConductivityKey in Assembled(o, r) ==> Assembled(o, r)[ConductivityKey] == LeadingOrderConductivity
    ensures DomainConductivityKey(d) in Assembled(o, r) <==>
      EqualsText(o.surfaceForm, Differential) || EqualsText(o.surfaceForm, Algebraic)
    ensures EqualsText(o.surfaceForm, Differential) ==> Assembled(o, r)[DomainConductivityKey(d)] == LeadingOrderDifferential(d, r)
    ensures EqualsText(o.surfaceForm, Algebraic) ==> Assembled(o, r)[DomainConductivityKey(d)] == LeadingOrderAlgebraic(d, r)
  {
    ElectrolyteEntriesSpec(o, r);
    AssembledLookup(o, r, ElectrolyteStep, ConductivityKey);
    AssembledLookup(o, r, ElectrolyteStep, DomainConductivityKey(d));
  }

  /** With a recognised surface form, the kinetics and the conductivity agree:
      inverse Butler-Volmer kinetics go with the single conductivity
      submodel, Butler-Volmer kinetics with the per-domain ones. */
  lemma LegalKineticsMatchConductivity(o: Options, r: Reactions, d: Domain)
    requires IsFalse(o.surfaceForm) || EqualsText(o.surfaceForm, Differential) || EqualsText(o.surfaceForm, Algebraic)
    ensures Assembled(o, r)[NegativeInterfaceKey] == InverseButlerVolmer(Negative, MainReaction) <==> ConductivityKey in Assembled(o, r)
    ensures Assembled(o, r)[NegativeInterfaceKey] == ButlerVolmer(Negative, MainReaction) <==> DomainConductivityKey(d) in Assembled(o, r)
  {
    AssembledInterfaces(o, r);
    AssembledConductivity(o, r, d);
  }

  /** A surface form that is neither False nor one of the two recognised
      strings (True, say) falls through every branch: Butler-Volmer
      kinetics and no conductivity submodel at all, only diffusion. */
  lemma UnrecognisedSurfaceForm(o: Options, r: Reactions, d: Domain)
    requires !IsFalse(o.surfaceForm) && !EqualsText(o.surfaceForm, Differential) && !EqualsText(o.surfaceForm, Algebraic)
    ensures Assembled(o, r)[NegativeInterfaceKey] == ButlerVolmer(Negative, MainReaction)
    ensures Assembled(o, r)[PositiveInterfaceKey] == ButlerVolmer(Positive, MainReaction)
    ensures ConductivityKey !in Assembled(o, r) && DomainConductivityKey(d) !in Assembled(o, r)
    ensures DiffusionKey in Assembled(o, r)
  {
    AssembledInterfaces(o, r);
    AssembledConductivity(o, r, d);
    AssembledDiffusion(o, r);
  }

  /** An unrecognised particle option registers no particle submodel. */
  lemma UnrecognisedParticle(o: Options, r: Reactions)
    requires !EqualsText(o.particle, FickianDiffusion) && !EqualsText(o.particle, FastDiffusion)
    ensures NegativeParticleKey !in Assembled(o, r) && PositiveParticleKey !in Assembled(o, r)
  {
    AssembledParticles(o, r);
  }

  /** Surface form False, Fickian diffusion, no current-collector
      dimensions. */
  const FalseFickianOptions := Options(Flag(false), Text(FickianDiffusion), Number(0))

  /** With those options: inverse Butler-Volmer kinetics, Fickian
      particles, one leading-order conductivity submodel and none per
      domain, on the one-dimensional geometry. */
  lemma FalseFickianModel(r: Reactions, d: Domain)
    ensures Assembled(FalseFickianOptions, r)[NegativeInterfaceKey] == InverseButlerVolmer(Negative, MainReaction)
    ensures Assembled(FalseFickianOptions, r)[PositiveInterfaceKey] == InverseButlerVolmer(Positive, MainReaction)
    ensures Assembled(FalseFickianOptions, r)[NegativeParticleKey] == FickianSingleParticle(Negative)
    ensures Assembled(FalseFickianOptions, r)[PositiveParticleKey] == FickianSingleParticle(Positive)
    ensures ConductivityKey in Assembled(FalseFickianOptions, r) && DomainConductivityKey(d) !in Assembled(FalseFickianOptions, r)
    ensures DefaultGeometry(FalseFickianOptions) == Some(Geometry("1D macro", "1D micro"))
  {
    AssembledInterfaces(FalseFickianOptions, r);
    AssembledParticles(FalseFickianOptions, r);
    AssembledConductivity(FalseFickianOptions, r, d);
  }

  /** The surface-form model: differential surface form puts one
      differential conductivity submodel on every domain, and Butler-Volmer
      kinetics on both electrodes. */
  lemma DifferentialModel(o: Options, r: Reactions, d: Domain)
    requires o.surfaceForm == Text(Differential)
    ensures Assembled(o, r)[DomainConductivityKey(d)] == LeadingOrderDifferential(d, r)
    ensures ConductivityKey !in Assembled(o, r)
    ensures Assembled(o, r)[NegativeInterfaceKey] == ButlerVolmer(Negative, MainReaction)
    ensures Assembled(o, r)[PositiveInterfaceKey] == ButlerVolmer(Positive, MainReaction)
  {
    AssembledInterfaces(o, r);
    AssembledConductivity(o, r, d);
  }
}
