/** The Single Particle Model object: its constructor runs the selection
    steps in a fixed order, each step assigning its own keys of the
    submodel map in place. */
module Spm {
  import opened Options
  import opened Submodels
  import opened Assembly

  class SPM {
    const options: Options
    const name: string
    /** The submodel map; each key stands for the string `KeyName` gives it. */
    var submodels: map<Key, Submodel>
    /** The reaction registry left by `set_reactions`. */
    const reactions: Reactions
    /** Whether `build_model` has run. */
    var built: bool

    /** Runs reactions, external circuit, porosity, tortuosity, convection,
        interface, particle, negative electrode, electrolyte, positive
        electrode, thermal and current collector, in that order, starting
        from an empty map (what the base model's constructor is taken to
        leave); then builds only if `build` is set, so a model made with
        `build` false keeps an open map. */
    constructor (options: Options, registry: Reactions, name: string := "Single Particle Model", build: bool := true)
      ensures this.options == options && this.name == name
      ensures reactions == registry
      ensures submodels == Assembled(options, registry)
      ensures built == build
    {
      this.options := options;
      this.name := name;
      submodels := map[];
      // The first step, the base model's `set_reactions`, fills the
      // reaction registry and writes no submodel.
      reactions := registry;
      built := false;
      new;
      SetExternalCircuitSubmodel();
      SetPorositySubmodel();
      SetTortuositySubmodels();
      SetConvectionSubmodel();
      SetInterfacialSubmodel();
      SetParticleSubmodel();
      SetNegativeElectrodeSubmodel();
      SetElectrolyteSubmodel();
      SetPositiveElectrodeSubmodel();
      SetThermalSubmodel();
      SetCurrentCollectorSubmodel();
      if build {
        BuildModel();
      }
    }

    /** Inherited from the base model: a placeholder under its own key. */
    method SetExternalCircuitSubmodel()
      modifies this`submodels
      ensures submodels == old(submodels)[ExternalCircuitKey := Inherited(ExternalCircuit)]
    {
      submodels := submodels[ExternalCircuitKey := Inherited(ExternalCircuit)];
    }

    method SetPorositySubmodel()
      modifies this`submodels
      ensures submodels == old(submodels)[PorosityKey := ConstantPorosity]
    {
      submodels := submodels[PorosityKey := ConstantPorosity];
    }

    /** Inherited from the base model: placeholders under its own keys. */
    method SetTortuositySubmodels()
      modifies this`submodels
      ensures submodels == old(submodels)[ElectrolyteTortuosityKey := Inherited(ElectrolyteTortuosity)][ElectrodeTortuosityKey := Inherited(ElectrodeTortuosity)]
    {
      submodels := submodels[ElectrolyteTortuosityKey := Inherited(ElectrolyteTortuosity)];
      submodels := submodels[ElectrodeTortuosityKey := Inherited(ElectrodeTortuosity)];
    }

    method SetConvectionSubmodel()
      modifies this`submodels
      ensures submodels == old(submodels)[ConvectionKey := NoConvection]
    {
      submodels := submodels[ConvectionKey := NoConvection];
    }

    method SetInterfacialSubmodel()
      modifies this`submodels
      ensures submodels == old(submodels) + InterfaceEntries(options)
    {
      if IsFalse(options.surfaceForm) {
        submodels := submodels[NegativeInterfaceKey := InverseButlerVolmer(Negative, MainReaction)];
        submodels := submodels[PositiveInterfaceKey := InverseButlerVolmer(Positive, MainReaction)];
      } else {
        submodels := submodels[NegativeInterfaceKey := ButlerVolmer(Negative, MainReaction)];
        submodels := submodels[PositiveInterfaceKey := ButlerVolmer(Positive, MainReaction)];
      }
    }

    method SetParticleSubmodel()
      modifies this`submodels
      ensures submodels == old(submodels) + ParticleEntries(options)
    {
      if EqualsText(options.particle, FickianDiffusion) {
        submodels := submodels[NegativeParticleKey := FickianSingleParticle(Negative)];
        submodels := submodels[PositiveParticleKey := FickianSingleParticle(Positive)];
      } else if EqualsText(options.particle, FastDiffusion) {
        submodels := submodels[NegativeParticleKey := FastSingleParticle(Negative)];
        submodels := submodels[PositiveParticleKey := FastSingleParticle(Positive)];
      }
    }

    method SetNegativeElectrodeSubmodel()
      modifies this`submodels
      ensures submodels == old(submodels)[NegativeElectrodeKey := OhmLeadingOrder(Negative)]
    {
      submodels := submodels[NegativeElectrodeKey := OhmLeadingOrder(Negative)];
    }

    method SetPositiveElectrodeSubmodel()
      modifies this`submodels
      ensures submodels == old(submodels)[PositiveElectrodeKey := OhmLeadingOrder(Positive)]
    {
      submodels := submodels[PositiveElectrodeKey := OhmLeadingOrder(Positive)];
    }

    method SetElectrolyteSubmodel()
      modifies this`submodels
      ensures submodels == old(submodels) + ElectrolyteEntries(options, reactions)
    {
      ghost var conductivity := ConductivityEntries(options, reactions);
      if IsFalse(options.surfaceForm) {
        submodels := submodels[ConductivityKey := LeadingOrderConductivity];
      } else if EqualsText(options.surfaceForm, Differential) {
        SetDomainConductivities(DifferentialKind);
      } else if EqualsText(options.surfaceForm, Algebraic) {
        SetDomainConductivities(AlgebraicKind);
      }
      assert submodels == old(submodels) + conductivity;
      OverlayUpdate(old(submodels), conductivity, DiffusionKey, ConstantConcentration);
      submodels := submodels[DiffusionKey := ConstantConcentration];
    }

    /** The loop over the domains, writing one conductivity submodel per
        domain. */
    method SetDomainConductivities(kind: SurfaceKind)
      modifies this`submodels
      ensures submodels == old(submodels) + DomainConductivities(kind, reactions)
    {
      for i := 0 to |AllDomains|
        invariant submodels == old(submodels) + DomainConductivitiesOver(AllDomains[..i], kind, reactions)
      {
        DomainConductivitiesOverStep(AllDomains, i, kind, reactions, old(submodels));
        var domain := AllDomains[i];
        submodels := submodels[DomainConductivityKey(domain) := DomainConductivity(kind, domain, reactions)];
      }
      assert AllDomains[..|AllDomains|] == AllDomains;
      DomainConductivitiesOverAll(kind, reactions);
    }

    /** Inherited from the base model: a placeholder under its own key. */
    method SetThermalSubmodel()
      modifies this`submodels
      ensures submodels == old(submodels)[ThermalKey := Inherited(Thermal)]
    {
      submodels := submodels[ThermalKey := Inherited(Thermal)];
    }

    /** Inherited from the base model: a placeholder under its own key. */
    method SetCurrentCollectorSubmodel()
      modifies this`submodels
      ensures submodels == old(submodels)[CurrentCollectorKey := Inherited(CurrentCollector)]
    {
      submodels := submodels[CurrentCollectorKey := Inherited(CurrentCollector)];
    }

    /** Inherited from the base model: builds the model from the submodels
        registered so far; only the transition to built is modelled. */
    method BuildModel()
      modifies this`built
      ensures built
    {
      built := true;
    }
  }
}
