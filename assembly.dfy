/** What each submodel-selection step of the Single Particle Model writes
    into the submodel map, and what running the steps in sequence yields. */
module Assembly {
  import opened Options
  import opened Submodels

  /** The `set_*` steps the constructor runs. */
  datatype Step =
    | ReactionsStep
    | ExternalCircuitStep
    | PorosityStep
    | TortuosityStep
    | ConvectionStep
    | InterfaceStep
    | ParticleStep
    | NegativeElectrodeStep
    | ElectrolyteStep
    | PositiveElectrodeStep
    | ThermalStep
    | CurrentCollectorStep

  /** The order in which the constructor runs the steps. */
  const ConstructionOrder: seq<Step> := [
    ReactionsStep, ExternalCircuitStep, PorosityStep, TortuosityStep,
    ConvectionStep, InterfaceStep, ParticleStep, NegativeElectrodeStep,
    ElectrolyteStep, PositiveElectrodeStep, ThermalStep, CurrentCollectorStep]

  /** The keys a step may write, whatever the options. `set_reactions`
      fills the reaction registry and writes no submodel. */
  function OwnKeys(s: Step): set<Key>
  {
    match s
    case ReactionsStep => {}
    case ExternalCircuitStep => {ExternalCircuitKey}
    case PorosityStep => {PorosityKey}
    case TortuosityStep => {ElectrolyteTortuosityKey, ElectrodeTortuosityKey}
    case ConvectionStep => {ConvectionKey}
    case InterfaceStep => {NegativeInterfaceKey, PositiveInterfaceKey}
    case ParticleStep => {NegativeParticleKey, PositiveParticleKey}
    case NegativeElectrodeStep => {NegativeElectrodeKey}
    case ElectrolyteStep => {ConductivityKey, DiffusionKey} + DomainConductivityKeys()
    case PositiveElectrodeStep => {PositiveElectrodeKey}
    case ThermalStep => {ThermalKey}
    case CurrentCollectorStep => {CurrentCollectorKey}
  }

  /** The step that owns a key. */
  function Owner(k: Key): Step
  {
    match k
    case PorosityKey => PorosityStep
    case ConvectionKey => ConvectionStep
    case NegativeInterfaceKey => InterfaceStep
    case PositiveInterfaceKey => InterfaceStep
    case NegativeParticleKey => ParticleStep
    case PositiveParticleKey => ParticleStep
    case NegativeElectrodeKey => NegativeElectrodeStep
    case PositiveElectrodeKey => PositiveElectrodeStep
    case ConductivityKey => ElectrolyteStep
    case DomainConductivityKey(_) => ElectrolyteStep
    case DiffusionKey => ElectrolyteStep
    case ExternalCircuitKey => ExternalCircuitStep
    case ElectrolyteTortuosityKey => TortuosityStep
    case ElectrodeTortuosityKey => TortuosityStep
    case ThermalKey => ThermalStep
    case CurrentCollectorKey => CurrentCollectorStep
  }

  /** Every key a step may write is owned by that step. */
  lemma OwnerOf(s: Step, k: Key)
    requires k in OwnKeys(s)
    ensures Owner(k) == s
  {
  }

  /** No two steps share a key. */
  lemma OwnKeysDisjoint(s: Step, t: Step)
    requires s != t
    ensures OwnKeys(s) !! OwnKeys(t)
  {
    forall k | k in OwnKeys(s) && k in OwnKeys(t) ensures false {
      OwnerOf(s, k);
      OwnerOf(t, k);
    }
  }

  /** `set_interfacial_submodel`: the kinetics of both electrodes, always
      for the main reaction. */
  function InterfaceEntries(o: Options): map<Key, Submodel>
  {
    if IsFalse(o.surfaceForm) then
      map[NegativeInterfaceKey := InverseButlerVolmer(Negative, MainReaction),
          PositiveInterfaceKey := InverseButlerVolmer(Positive, MainReaction)]
    else
      map[NegativeInterfaceKey := ButlerVolmer(Negative, MainReaction),
          PositiveInterfaceKey := ButlerVolmer(Positive, MainReaction)]
  }

  /** Both interface keys are written; each holds inverse Butler-Volmer
      kinetics exactly when surface form is the boolean False, and
      Butler-Volmer kinetics exactly when it is anything else. */
  lemma InterfaceEntriesSpec(o: Options)
    ensures InterfaceEntries(o).Keys == {NegativeInterfaceKey, PositiveInterfaceKey}
    ensures InterfaceEntries(o)[NegativeInterfaceKey] == InverseButlerVolmer(Negative, MainReaction) <==> IsFalse(o.surfaceForm)
    ensures InterfaceEntries(o)[PositiveInterfaceKey] == InverseButlerVolmer(Positive, MainReaction) <==> IsFalse(o.surfaceForm)
    ensures InterfaceEntries(o)[NegativeInterfaceKey] == ButlerVolmer(Negative, MainReaction) <==> !IsFalse(o.surfaceForm)
    ensures InterfaceEntries(o)[PositiveInterfaceKey] == ButlerVolmer(Positive, MainReaction) <==> !IsFalse(o.surfaceForm)
  {
  }

  /** `set_particle_submodel`: the particle model of both electrodes. */
  function ParticleEntries(o: Options): map<Key, Submodel>
  {
    if EqualsText(o.particle, FickianDiffusion) then
      map[NegativeParticleKey := FickianSingleParticle(Negative),
          PositiveParticleKey := FickianSingleParticle(Positive)]
    else if EqualsText(o.particle, FastDiffusion) then
      map[NegativeParticleKey := FastSingleParticle(Negative),
          PositiveParticleKey := FastSingleParticle(Positive)]
    else
      map[]
  }

  /** Both particles get the Fickian or both the fast single-particle
      variant, each on its own electrode; any other particle option writes
      nothing. */
  lemma ParticleEntriesSpec(o: Options)
    ensures NegativeParticleKey in ParticleEntries(o) <==> EqualsText(o.particle, FickianDiffusion) || EqualsText(o.particle, FastDiffusion)
    ensures PositiveParticleKey in ParticleEntries(o) <==> NegativeParticleKey in ParticleEntries(o)
    ensures ParticleEntries(o).Keys <= {NegativeParticleKey, PositiveParticleKey}
    ensures EqualsText(o.particle, FickianDiffusion) ==>
      ParticleEntries(o)[NegativeParticleKey] == FickianSingleParticle(Negative) && ParticleEntries(o)[PositiveParticleKey] == FickianSingleParticle(Positive)
    ensures EqualsText(o.particle, FastDiffusion) ==>
      ParticleEntries(o)[NegativeParticleKey] == FastSingleParticle(Negative) && ParticleEntries(o)[PositiveParticleKey] == FastSingleParticle(Positive)
  {
  }

  /** The two surface-form treatments that split the conductivity submodel
      by domain. */
  datatype SurfaceKind = DifferentialKind | AlgebraicKind

  /** The per-domain conductivity submodel of a surface-form treatment. */
  function DomainConductivity(kind: SurfaceKind, d: Domain, r: Reactions): Submodel
  {
    match kind
    case DifferentialKind => LeadingOrderDifferential(d, r)
    case AlgebraicKind => LeadingOrderAlgebraic(d, r)
  }

  /** What the per-domain loop writes, visiting the domains `ds` in order. */
  function DomainConductivitiesOver(ds: seq<Domain>, kind: SurfaceKind, r: Reactions): map<Key, Submodel>
    decreases |ds|
  {
    if ds == [] then map[]
    else
      var d := ds[|ds| - 1];
      DomainConductivitiesOver(ds[..|ds| - 1], kind, r)[DomainConductivityKey(d) := DomainConductivity(kind, d, r)]
  }

  /** One more loop iteration extends the visited prefix by one domain. */
  lemma DomainConductivitiesOverStep(ds: seq<Domain>, i: nat, kind: SurfaceKind, r: Reactions, m: map<Key, Submodel>)
    requires i < |ds|
    ensures (m + DomainConductivitiesOver(ds[..i], kind, r))[DomainConductivityKey(ds[i]) := DomainConductivity(kind, ds[i], r)]
      == m + DomainConductivitiesOver(ds[..i + 1], kind, r)
  {
    assert ds[..i + 1][..i] == ds[..i];
    assert ds[..i + 1][i] == ds[i];
  }

  /** Visiting the three domains in the loop's order writes exactly the
      per-domain conductivity entries. */
  lemma DomainConductivitiesOverAll(kind: SurfaceKind, r: Reactions)
    ensures DomainConductivitiesOver(AllDomains, kind, r) == DomainConductivities(kind, r)
  {
    var ds := AllDomains;
    assert ds[..2][..1][..0] == [];
    assert DomainConductivitiesOver(ds[..1], kind, r) == map[DomainConductivityKey(Negative) := DomainConductivity(kind, Negative, r)];
    assert DomainConductivitiesOver(ds[..2], kind, r) == DomainConductivitiesOver(ds[..1], kind, r)[DomainConductivityKey(Separator) := DomainConductivity(kind, Separator, r)] by {
      assert ds[..2][..1] == ds[..1];
    }
    assert DomainConductivitiesOver(ds, kind, r) == DomainConductivitiesOver(ds[..2], kind, r)[DomainConductivityKey(Positive) := DomainConductivity(kind, Positive, r)];
  }

  /** What the per-domain loop writes once it has visited all three
      domains. */
  function DomainConductivities(kind: SurfaceKind, r: Reactions): map<Key, Submodel>
  {
    map[DomainConductivityKey(Negative) := DomainConductivity(kind, Negative, r),
        DomainConductivityKey(Separator) := DomainConductivity(kind, Separator, r),
        DomainConductivityKey(Positive) := DomainConductivity(kind, Positive, r)]
  }

  /** One key per domain, holding that domain's submodel. */
  lemma DomainConductivitiesSpec(kind: SurfaceKind, r: Reactions)
    ensures DomainConductivities(kind, r).Keys == DomainConductivityKeys()
    ensures forall d: Domain ::
      DomainConductivityKey(d) in DomainConductivities(kind, r) && DomainConductivities(kind, r)[DomainConductivityKey(d)] == DomainConductivity(kind, d, r)
  {
    DomainConductivityKeysComplete();
  }

  /** The conductivity half of `set_electrolyte_submodel`. */
  function ConductivityEntries(o: Options, r: Reactions): map<Key, Submodel>
  {
    if IsFalse(o.surfaceForm) then map[ConductivityKey := LeadingOrderConductivity]
    else if EqualsText(o.surfaceForm, Differential) then DomainConductivities(DifferentialKind, r)
    else if EqualsText(o.surfaceForm, Algebraic) then DomainConductivities(AlgebraicKind, r)
    else map[]
  }

  /** `set_electrolyte_submodel`: the conductivity submodels, then
      constant-concentration diffusion on top. */
  function ElectrolyteEntries(o: Options, r: Reactions): map<Key, Submodel>
  {
    ConductivityEntries(o, r)[DiffusionKey := ConstantConcentration]
  }

  /** With surface form False a single leading-order conductivity
      submodel; with "differential" or "algebraic" one conductivity
      submodel per domain, each carrying its domain and the reaction
      registry; with any other value no conductivity submodel at all.
      Constant-concentration diffusion is written in every case, and
      nothing outside the electrolyte's own keys. */
  lemma ElectrolyteEntriesSpec(o: Options, r: Reactions)
    ensures DiffusionKey in ElectrolyteEntries(o, r) && ElectrolyteEntries(o, r)[DiffusionKey] == ConstantConcentration
    ensures ConductivityKey in ElectrolyteEntries(o, r) <==> IsFalse(o.surfaceForm)
    ensures ConductivityKey in ElectrolyteEntries(o, r) ==> ElectrolyteEntries(o, r)[ConductivityKey] == LeadingOrderConductivity
    ensures forall d: Domain :: DomainConductivityKey(d) in ElectrolyteEntries(o, r) <==>
      EqualsText(o.surfaceForm, Differential) || EqualsText(o.surfaceForm, Algebraic)
    ensures forall d: Domain :: EqualsText(o.surfaceForm, Differential) ==>
      DomainConductivityKey(d) in ElectrolyteEntries(o, r) && ElectrolyteEntries(o, r)[DomainConductivityKey(d)] == LeadingOrderDifferential(d, r)
    ensures forall d: Domain :: EqualsText(o.surfaceForm, Algebraic) ==>
      DomainConductivityKey(d) in ElectrolyteEntries(o, r) && ElectrolyteEntries(o, r)[DomainConductivityKey(d)] == LeadingOrderAlgebraic(d, r)
    ensures ElectrolyteEntries(o, r).Keys <= OwnKeys(ElectrolyteStep)
  {
    DomainConductivityKeysComplete();
    if EqualsText(o.surfaceForm, Differential) {
      DomainConductivitiesSpec(DifferentialKind, r);
    } else if EqualsText(o.surfaceForm, Algebraic) {
      DomainConductivitiesSpec(AlgebraicKind, r);
    }
  }

  /** Exactly one conductivity key with surface form False, exactly three
      with "differential" or "algebraic", none otherwise; the diffusion key
      comes on top in every case. */
  lemma ElectrolyteEntriesCount(o: Options, r: Reactions)
    ensures |ElectrolyteEntries(o, r)| == if IsFalse(o.surfaceForm) then 2
      else if EqualsText(o.surfaceForm, Differential) || EqualsText(o.surfaceForm, Algebraic) then 4
      else 1
  {
    var keys := ElectrolyteEntries(o, r).Keys;
    if IsFalse(o.surfaceForm) {
      assert keys == {ConductivityKey, DiffusionKey};
    } else if EqualsText(o.surfaceForm, Differential) || EqualsText(o.surfaceForm, Algebraic) {
      var kind := if EqualsText(o.surfaceForm, Differential) then DifferentialKind else AlgebraicKind;
      DomainConductivitiesSpec(kind, r);
      assert keys == {DomainConductivityKey(Negative), DomainConductivityKey(Separator), DomainConductivityKey(Positive), DiffusionKey};
    } else {
      assert keys == {DiffusionKey};
    }
  }


  /** What one step writes; the steps inherited from the base model write a
      placeholder under their own keys. */
  function Entries(s: Step, o: Options, r: Reactions): map<Key, Submodel>
  {
    match s
    case ReactionsStep => map[]
    case ExternalCircuitStep => map[ExternalCircuitKey := Inherited(ExternalCircuit)]
    case PorosityStep => map[PorosityKey := ConstantPorosity]
    case TortuosityStep =>
      map[ElectrolyteTortuosityKey := Inherited(ElectrolyteTortuosity),
          ElectrodeTortuosityKey := Inherited(ElectrodeTortuosity)]
    case ConvectionStep => map[ConvectionKey := NoConvection]
    case InterfaceStep => InterfaceEntries(o)
    case ParticleStep => ParticleEntries(o)
    case NegativeElectrodeStep => map[NegativeElectrodeKey := OhmLeadingOrder(Negative)]
    case ElectrolyteStep => ElectrolyteEntries(o, r)
    case PositiveElectrodeStep => map[PositiveElectrodeKey := OhmLeadingOrder(Positive)]
    case ThermalStep => map[ThermalKey := Inherited(Thermal)]
    case CurrentCollectorStep => map[CurrentCollectorKey := Inherited(CurrentCollector)]
  }

  /** A step writes only keys it owns. */
  lemma EntriesWithinOwnKeys(s: Step, o: Options, r: Reactions)
    ensures Entries(s, o, r).Keys <= OwnKeys(s)
  {
    match s
    case InterfaceStep => InterfaceEntriesSpec(o);
    case ParticleStep => ParticleEntriesSpec(o);
    case ElectrolyteStep => ElectrolyteEntriesSpec(o, r);
    case _ =>
  }

  /** Running one step: the keyed assignments it performs on the map. */
  function Apply(s: Step, o: Options, r: Reactions, m: map<Key, Submodel>): map<Key, Submodel>
  {
    match s
    case ReactionsStep => m
    case ExternalCircuitStep => m[ExternalCircuitKey := Inherited(ExternalCircuit)]
    case PorosityStep => m[PorosityKey := ConstantPorosity]
    case TortuosityStep =>
      m[ElectrolyteTortuosityKey := Inherited(ElectrolyteTortuosity)][ElectrodeTortuosityKey := Inherited(ElectrodeTortuosity)]
    case ConvectionStep => m[ConvectionKey := NoConvection]
    case InterfaceStep => m + InterfaceEntries(o)
    case ParticleStep => m + ParticleEntries(o)
    case NegativeElectrodeStep => m[NegativeElectrodeKey := OhmLeadingOrder(Negative)]
    case ElectrolyteStep => m + ElectrolyteEntries(o, r)
    case PositiveElectrodeStep => m[PositiveElectrodeKey := OhmLeadingOrder(Positive)]
    case ThermalStep => m[ThermalKey := Inherited(Thermal)]
    case CurrentCollectorStep => m[CurrentCollectorKey := Inherited(CurrentCollector)]
  }

  /** Keyed assignment overwrites the step's entries and leaves every other
      key as it was: running a step overlays what it writes. */
  lemma ApplyIsOverlay(s: Step, o: Options, r: Reactions, m: map<Key, Submodel>)
    ensures Apply(s, o, r, m) == m + Entries(s, o, r)
  {
  }

  /** A step writes only keys it owns, so every other key keeps its entry
      or its absence; the keys it does write hold what it wrote. */
  lemma ApplyFrame(s: Step, o: Options, r: Reactions, m: map<Key, Submodel>, k: Key)
    ensures k !in OwnKeys(s) ==> (k in Apply(s, o, r, m) <==> k in m)
    ensures k !in OwnKeys(s) && k in m ==> Apply(s, o, r, m)[k] == m[k]
    ensures k in Entries(s, o, r) ==> k in Apply(s, o, r, m) && Apply(s, o, r, m)[k] == Entries(s, o, r)[k]
  {
    ApplyIsOverlay(s, o, r, m);
    EntriesWithinOwnKeys(s, o, r);
  }

  /** Running a step twice leaves the map as running it once. */
  lemma ApplyIdempotent(s: Step, o: Options, r: Reactions, m: map<Key, Submodel>)
    ensures Apply(s, o, r, Apply(s, o, r, m)) == Apply(s, o, r, m)
  {
    ApplyIsOverlay(s, o, r, m);
    ApplyIsOverlay(s, o, r, Apply(s, o, r, m));
  }

  /** Overlays with disjoint keys can be laid in either order. */
  lemma OverlayCommutes(m: map<Key, Submodel>, a: map<Key, Submodel>, b: map<Key, Submodel>)
    requires a.Keys !! b.Keys
    ensures (m + a) + b == (m + b) + a
  {
  }

  /** On the submodel map alone, the effects of two different steps can be
      laid in either order; `ExecCommutes` adds the registry dependency. */
  lemma ApplyCommutes(s: Step, t: Step, o: Options, r: Reactions, m: map<Key, Submodel>)
    requires s != t
    ensures Apply(s, o, r, Apply(t, o, r, m)) == Apply(t, o, r, Apply(s, o, r, m))
  {
    OwnKeysDisjoint(s, t);
    EntriesWithinOwnKeys(s, o, r);
    EntriesWithinOwnKeys(t, o, r);
    ApplyIsOverlay(t, o, r, m);
    ApplyIsOverlay(s, o, r, m);
    ApplyIsOverlay(s, o, r, Apply(t, o, r, m));
    ApplyIsOverlay(t, o, r, Apply(s, o, r, m));
    OverlayCommutes(m, Entries(t, o, r), Entries(s, o, r));
  }

  /** Running the steps of a sequence from position `i` on, left to right. */
  function RunFrom(steps: seq<Step>, i: nat, o: Options, r: Reactions, m: map<Key, Submodel>): map<Key, Submodel>
    requires i <= |steps|
    decreases |steps| - i
  {
    if i == |steps| then m else RunFrom(steps, i + 1, o, r, Apply(steps[i], o, r, m))
  }

  /** Everything the steps from position `i` on write, a later step winning
      on a shared key. */
  function MergeFrom(steps: seq<Step>, i: nat, o: Options, r: Reactions): map<Key, Submodel>
    requires i <= |steps|
    decreases |steps| - i
  {
    if i == |steps| then map[] else Entries(steps[i], o, r) + MergeFrom(steps, i + 1, o, r)
  }

  lemma OverlayAssociative(a: map<Key, Submodel>, b: map<Key, Submodel>, c: map<Key, Submodel>)
    ensures (a + b) + c == a + (b + c)
  {
  }

  lemma OverlayUpdate(a: map<Key, Submodel>, b: map<Key, Submodel>, k: Key, v: Submodel)
    ensures (a + b)[k := v] == a + b[k := v]
  {
  }

  /** Running the steps overlays what they write on the starting map. */
  lemma {:induction false} RunIsOverlay(steps: seq<Step>, i: nat, o: Options, r: Reactions, m: map<Key, Submodel>)
    requires i <= |steps|
    ensures RunFrom(steps, i, o, r, m) == m + MergeFrom(steps, i, o, r)
    decreases |steps| - i
  {
    if i < |steps| {
      RunIsOverlay(steps, i + 1, o, r, Apply(steps[i], o, r, m));
      ApplyIsOverlay(steps[i], o, r, m);
      OverlayAssociative(m, Entries(steps[i], o, r), MergeFrom(steps, i + 1, o, r));
    }
  }

  /** Re-running every step of a sequence changes nothing more. */
  lemma RunIdempotent(steps: seq<Step>, o: Options, r: Reactions, m: map<Key, Submodel>)
    ensures RunFrom(steps, 0, o, r, RunFrom(steps, 0, o, r, m)) == RunFrom(steps, 0, o, r, m)
  {
    RunIsOverlay(steps, 0, o, r, m);
    RunIsOverlay(steps, 0, o, r, RunFrom(steps, 0, o, r, m));
    var w := MergeFrom(steps, 0, o, r);
    assert (m + w) + w == m + w;
  }

  /** A key no step of the sequence owns keeps its entry, or its absence. */
  lemma {:induction false} RunFrame(steps: seq<Step>, i: nat, o: Options, r: Reactions, m: map<Key, Submodel>, k: Key)
    requires i <= |steps|
    requires forall j :: i <= j < |steps| ==> k !in OwnKeys(steps[j])
    ensures k in RunFrom(steps, i, o, r, m) <==> k in m
    ensures k in m ==> RunFrom(steps, i, o, r, m)[k] == m[k]
    decreases |steps| - i
  {
    if i < |steps| {
      ApplyFrame(steps[i], o, r, m, k);
      RunFrame(steps, i + 1, o, r, Apply(steps[i], o, r, m), k);
    }
  }

  predicate Distinct(steps: seq<Step>)
  {
    forall i, j :: 0 <= i < j < |steps| ==> steps[i] != steps[j]
  }

  /** When no step repeats, each written key holds what the one step owning
      it wrote, and nothing else is written. */
  lemma {:induction false} MergeLookup(steps: seq<Step>, i: nat, o: Options, r: Reactions, k: Key)
    requires i <= |steps|
    requires Distinct(steps)
    ensures forall j :: i <= j < |steps| && k in Entries(steps[j], o, r) ==>
      k in MergeFrom(steps, i, o, r) && MergeFrom(steps, i, o, r)[k] == Entries(steps[j], o, r)[k]
    ensures k in MergeFrom(steps, i, o, r) ==> exists j :: i <= j < |steps| && k in Entries(steps[j], o, r)
    decreases |steps| - i
  {
    if i < |steps| {
      MergeLookup(steps, i + 1, o, r, k);
      if k in Entries(steps[i], o, r) && k in MergeFrom(steps, i + 1, o, r) {
        var j :| i + 1 <= j < |steps| && k in Entries(steps[j], o, r);
        OwnKeysDisjoint(steps[i], steps[j]);
        EntriesWithinOwnKeys(steps[i], o, r);
        EntriesWithinOwnKeys(steps[j], o, r);
        assert false;
      }
    }
  }

  /** On the submodel map alone, with the registry fixed, the order of
      distinct steps does not change the result, since no two steps share
      a key. `RunOrderIrrelevant` adds the registry dependency. */
  lemma RunFromOrderIrrelevant(a: seq<Step>, b: seq<Step>, o: Options, r: Reactions, m: map<Key, Submodel>)
    requires Distinct(a) && Distinct(b)
    requires forall s :: s in a <==> s in b
    ensures RunFrom(a, 0, o, r, m) == RunFrom(b, 0, o, r, m)
  {
    RunIsOverlay(a, 0, o, r, m);
    RunIsOverlay(b, 0, o, r, m);
    forall k ensures (k in MergeFrom(a, 0, o, r) <==> k in MergeFrom(b, 0, o, r))
      && (k in MergeFrom(a, 0, o, r) ==> MergeFrom(a, 0, o, r)[k] == MergeFrom(b, 0, o, r)[k])
    {
      MergeLookup(a, 0, o, r, k);
      MergeLookup(b, 0, o, r, k);
      if k in MergeFrom(a, 0, o, r) {
        var j :| 0 <= j < |a| && k in Entries(a[j], o, r);
        assert a[j] in b;
      }
      if k in MergeFrom(b, 0, o, r) {
        var j :| 0 <= j < |b| && k in Entries(b[j], o, r);
        assert b[j] in a;
      }
    }
    assert MergeFrom(a, 0, o, r) == MergeFrom(b, 0, o, r);
  }

  /** The submodel map the constructor assembles: the base model's empty
      map, then the keyed assignments of each step in turn. */
  function Assembled(o: Options, r: Reactions): map<Key, Submodel>
  {
    var m0: map<Key, Submodel> := map[];
    var m1 := m0[ExternalCircuitKey := Inherited(ExternalCircuit)];
    var m2 := m1[PorosityKey := ConstantPorosity];
    var m3 := m2[ElectrolyteTortuosityKey := Inherited(ElectrolyteTortuosity)][ElectrodeTortuosityKey := Inherited(ElectrodeTortuosity)];
    var m4 := m3[ConvectionKey := NoConvection];
    var m5 := m4 + InterfaceEntries(o);
    var m6 := m5 + ParticleEntries(o);
    var m7 := m6[NegativeElectrodeKey := OhmLeadingOrder(Negative)];
    var m8 := m7 + ElectrolyteEntries(o, r);
    var m9 := m8[PositiveElectrodeKey := OhmLeadingOrder(Positive)];
    var m10 := m9[ThermalKey := Inherited(Thermal)];
    m10[CurrentCollectorKey := Inherited(CurrentCollector)]
  }

  /** Reactions, external circuit and porosity: `mi` is the map after position `i` of the construction order. */
  lemma RunStepsFrom0(o: Options, r: Reactions, m0: map<Key, Submodel>, m1: map<Key, Submodel>, m2: map<Key, Submodel>)
    requires m0 == map[]
    requires m1 == m0[ExternalCircuitKey := Inherited(ExternalCircuit)]
    requires m2 == m1[PorosityKey := ConstantPorosity]
    ensures RunFrom(ConstructionOrder, 0, o, r, map[]) == RunFrom(ConstructionOrder, 3, o, r, m2)
  {
    assert RunFrom(ConstructionOrder, 0, o, r, map[]) == RunFrom(ConstructionOrder, 1, o, r, m0);
    assert RunFrom(ConstructionOrder, 1, o, r, m0) == RunFrom(ConstructionOrder, 2, o, r, m1);
    assert RunFrom(ConstructionOrder, 2, o, r, m1) == RunFrom(ConstructionOrder, 3, o, r, m2);
  }

  /** Tortuosity, convection and interface. */
  lemma RunStepsFrom3(o: Options, r: Reactions, m2: map<Key, Submodel>, m3: map<Key, Submodel>, m4: map<Key, Submodel>, m5: map<Key, Submodel>)
    requires m3 == m2[ElectrolyteTortuosityKey := Inherited(ElectrolyteTortuosity)][ElectrodeTortuosityKey := Inherited(ElectrodeTortuosity)]
    requires m4 == m3[ConvectionKey := NoConvection]
    requires m5 == m4 + InterfaceEntries(o)
    ensures RunFrom(ConstructionOrder, 3, o, r, m2) == RunFrom(ConstructionOrder, 6, o, r, m5)
  {
    assert RunFrom(ConstructionOrder, 3, o, r, m2) == RunFrom(ConstructionOrder, 4, o, r, m3);
    assert RunFrom(ConstructionOrder, 4, o, r, m3) == RunFrom(ConstructionOrder, 5, o, r, m4);
    assert RunFrom(ConstructionOrder, 5, o, r, m4) == RunFrom(ConstructionOrder, 6, o, r, m5);
  }

  /** Particle, negative electrode and electrolyte. */
  lemma RunStepsFrom6(o: Options, r: Reactions, m5: map<Key, Submodel>, m6: map<Key, Submodel>, m7: map<Key, Submodel>, m8: map<Key, Submodel>)
    requires m6 == m5 + ParticleEntries(o)
    requires m7 == m6[NegativeElectrodeKey := OhmLeadingOrder(Negative)]
    requires m8 == m7 + ElectrolyteEntries(o, r)
    ensures RunFrom(ConstructionOrder, 6, o, r, m5) == RunFrom(ConstructionOrder, 9, o, r, m8)
  {
    assert RunFrom(ConstructionOrder, 6, o, r, m5) == RunFrom(ConstructionOrder, 7, o, r, m6);
    assert RunFrom(ConstructionOrder, 7, o, r, m6) == RunFrom(ConstructionOrder, 8, o, r, m7);
    assert RunFrom(ConstructionOrder, 8, o, r, m7) == RunFrom(ConstructionOrder, 9, o, r, m8);
  }

  /** Positive electrode, thermal and current collector. */
  lemma RunStepsFrom9(o: Options, r: Reactions, m8: map<Key, Submodel>, m9: map<Key, Submodel>, m10: map<Key, Submodel>, m11: map<Key, Submodel>)
    requires m9 == m8[PositiveElectrodeKey := OhmLeadingOrder(Positive)]
    requires m10 == m9[ThermalKey := Inherited(Thermal)]
    requires m11 == m10[CurrentCollectorKey := Inherited(CurrentCollector)]
    ensures RunFrom(ConstructionOrder, 9, o, r, m8) == m11
  {
    assert RunFrom(ConstructionOrder, 9, o, r, m8) == RunFrom(ConstructionOrder, 10, o, r, m9);
    assert RunFrom(ConstructionOrder, 10, o, r, m9) == RunFrom(ConstructionOrder, 11, o, r, m10);
    assert RunFrom(ConstructionOrder, 11, o, r, m10) == RunFrom(ConstructionOrder, 12, o, r, m11);
  }

  /** The assembled map is what running the construction order from an
      empty map yields. */
  lemma AssembledIsRun(o: Options, r: Reactions)
    ensures Assembled(o, r) == RunFrom(ConstructionOrder, 0, o, r, map[])
  {
    var m0: map<Key, Submodel> := map[];
    var m1 := m0[ExternalCircuitKey := Inherited(ExternalCircuit)];
    var m2 := m1[PorosityKey := ConstantPorosity];
    var m3 := m2[ElectrolyteTortuosityKey := Inherited(ElectrolyteTortuosity)][ElectrodeTortuosityKey := Inherited(ElectrodeTortuosity)];
    var m4 := m3[ConvectionKey := NoConvection];
    var m5 := m4 + InterfaceEntries(o);
    var m6 := m5 + ParticleEntries(o);
    var m7 := m6[NegativeElectrodeKey := OhmLeadingOrder(Negative)];
    var m8 := m7 + ElectrolyteEntries(o, r);
    var m9 := m8[PositiveElectrodeKey := OhmLeadingOrder(Positive)];
    var m10 := m9[ThermalKey := Inherited(Thermal)];
    var m11 := m10[CurrentCollectorKey := Inherited(CurrentCollector)];
    RunStepsFrom0(o, r, m0, m1, m2);
    RunStepsFrom3(o, r, m2, m3, m4, m5);
    RunStepsFrom6(o, r, m5, m6, m7, m8);
    RunStepsFrom9(o, r, m8, m9, m10, m11);
  }

  lemma ConstructionOrderComplete()
    ensures Distinct(ConstructionOrder)
    ensures forall s: Step :: s in ConstructionOrder
  {
    forall s: Step ensures s in ConstructionOrder {
      var i := match s
        case ReactionsStep => 0
        case ExternalCircuitStep => 1
        case PorosityStep => 2
        case TortuosityStep => 3
        case ConvectionStep => 4
        case InterfaceStep => 5
        case ParticleStep => 6
        case NegativeElectrodeStep => 7
        case ElectrolyteStep => 8
        case PositiveElectrodeStep => 9
        case ThermalStep => 10
        case CurrentCollectorStep => 11;
      assert ConstructionOrder[i] == s;
    }
  }

  /** When no step repeats, every key of the result that a step of the
      sequence owns was written by that step, and holds what it wrote. */
  lemma RunLookup(steps: seq<Step>, o: Options, r: Reactions, s: Step, k: Key)
    requires Distinct(steps) && s in steps
    ensures k in RunFrom(steps, 0, o, r, map[]) && k in OwnKeys(s) ==> k in Entries(s, o, r)
    ensures k in Entries(s, o, r) ==> k in RunFrom(steps, 0, o, r, map[]) && RunFrom(steps, 0, o, r, map[])[k] == Entries(s, o, r)[k]
  {
    RunIsOverlay(steps, 0, o, r, map[]);
    MergeLookup(steps, 0, o, r, k);
    var j :| 0 <= j < |steps| && steps[j] == s;
    if k in RunFrom(steps, 0, o, r, map[]) && k in OwnKeys(s) {
      var t :| 0 <= t < |steps| && k in Entries(steps[t], o, r);
      if steps[t] != s {
        OwnKeysDisjoint(s, steps[t]);
        EntriesWithinOwnKeys(steps[t], o, r);
      }
    }
  }

  /** Every key of the assembled map was written by exactly the step that
      owns it, and holds what that step wrote. */
  lemma AssembledLookup(o: Options, r: Reactions, s: Step, k: Key)
    ensures k in Assembled(o, r) && k in OwnKeys(s) ==> k in Entries(s, o, r)
    ensures k in Entries(s, o, r) ==> k in Assembled(o, r) && Assembled(o, r)[k] == Entries(s, o, r)[k]
  {
    ConstructionOrderComplete();
    AssembledIsRun(o, r);
    RunLookup(ConstructionOrder, o, r, s, k);
  }

  /** The state a run of steps works on. `registered` says whether
      `set_reactions` has run, so that `self.reactions` exists; `Failed`
      is a run that raised because a step read the registry before it
      existed. The registry `set_reactions` leaves is the same every time
      it runs and is passed to the steps as `r`. */
  datatype RunState = Running(registered: bool, submodels: map<Key, Submodel>) | Failed

  /** The electrolyte step reads `self.reactions` only in its
      "differential" and "algebraic" branches. */
  predicate ReadsRegistry(s: Step, o: Options)
  {
    s == ElectrolyteStep && (EqualsText(o.surfaceForm, Differential) || EqualsText(o.surfaceForm, Algebraic))
  }

  /** Running one step on the run state: a step that reads the registry
      before `set_reactions` has run raises, and a failed run stays failed. */
  function Exec(s: Step, o: Options, r: Reactions, st: RunState): RunState
  {
    match st
    case Failed => Failed
    case Running(registered, m) =>
      if ReadsRegistry(s, o) && !registered then Failed
      else Running(registered || s == ReactionsStep, Apply(s, o, r, m))
  }

  /** Running the steps of a sequence from position `i` on the run state. */
  function ExecFrom(steps: seq<Step>, i: nat, o: Options, r: Reactions, st: RunState): RunState
    requires i <= |steps|
    decreases |steps| - i
  {
    if i == |steps| then st else ExecFrom(steps, i + 1, o, r, Exec(steps[i], o, r, st))
  }

  /** No step from position `i` on reads the registry before one exists. */
  predicate Ordered(steps: seq<Step>, i: nat, o: Options, registered: bool)
    requires i <= |steps|
    decreases |steps| - i
  {
    i == |steps| ||
    (!(ReadsRegistry(steps[i], o) && !registered) && Ordered(steps, i + 1, o, registered || steps[i] == ReactionsStep))
  }

  lemma {:induction false} FailedStaysFailed(steps: seq<Step>, i: nat, o: Options, r: Reactions)
    requires i <= |steps|
    ensures ExecFrom(steps, i, o, r, Failed) == Failed
    decreases |steps| - i
  {
    if i < |steps| {
      FailedStaysFailed(steps, i + 1, o, r);
    }
  }

  /** A run succeeds exactly when its steps are ordered, and then its map
      is the one `RunFrom` computes and the registry exists once any step
      was `set_reactions`. */
  lemma {:induction false} ExecIsRun(steps: seq<Step>, i: nat, o: Options, r: Reactions, registered: bool, m: map<Key, Submodel>)
    requires i <= |steps|
    ensures ExecFrom(steps, i, o, r, Running(registered, m)) ==
      if Ordered(steps, i, o, registered) then Running(registered || ReactionsStep in steps[i..], RunFrom(steps, i, o, r, m))
      else Failed
    decreases |steps| - i
  {
    if i < |steps| {
      if ReadsRegistry(steps[i], o) && !registered {
        FailedStaysFailed(steps, i + 1, o, r);
      } else {
        ExecIsRun(steps, i + 1, o, r, registered || steps[i] == ReactionsStep, Apply(steps[i], o, r, m));
        assert steps[i..] == [steps[i]] + steps[i + 1..];
      }
    }
  }

  /** Once the registry exists, every order of the remaining steps is
      allowed. */
  lemma {:induction false} OrderedOnceRegistered(steps: seq<Step>, i: nat, o: Options)
    requires i <= |steps|
    ensures Ordered(steps, i, o, true)
    decreases |steps| - i
  {
    if i < |steps| {
      OrderedOnceRegistered(steps, i + 1, o);
    }
  }

  /** Reading the registry at position `j` with no `set_reactions` before it
      makes the run fail. */
  lemma {:induction false} NotOrdered(steps: seq<Step>, i: nat, j: nat, o: Options)
    requires i <= j < |steps|
    requires ReadsRegistry(steps[j], o)
    requires forall k :: i <= k < j ==> steps[k] != ReactionsStep
    ensures !Ordered(steps, i, o, false)
    decreases j - i
  {
    if i < j {
      NotOrdered(steps, i + 1, j, o);
    }
  }

  /** A run from an object without a registry that reaches the electrolyte
      step, in a branch that reads the registry, before any
      `set_reactions` raises. */
  lemma ElectrolyteBeforeReactionsFails(steps: seq<Step>, j: nat, o: Options, r: Reactions, m: map<Key, Submodel>)
    requires j < |steps| && steps[j] == ElectrolyteStep
    requires ReadsRegistry(ElectrolyteStep, o)
    requires forall k :: 0 <= k < j ==> steps[k] != ReactionsStep
    ensures ExecFrom(steps, 0, o, r, Running(false, m)) == Failed
  {
    NotOrdered(steps, 0, j, o);
    ExecIsRun(steps, 0, o, r, false, m);
  }

  /** Two different steps can be run in either order, except
      `set_reactions` and an electrolyte step that reads the registry. */
  lemma ExecCommutes(s: Step, t: Step, o: Options, r: Reactions, st: RunState)
    requires s != t
    ensures !(s == ReactionsStep && ReadsRegistry(t, o)) && !(t == ReactionsStep && ReadsRegistry(s, o)) ==>
      Exec(s, o, r, Exec(t, o, r, st)) == Exec(t, o, r, Exec(s, o, r, st))
  {
    if st.Running? {
      ApplyCommutes(s, t, o, r, st.submodels);
    }
  }

  /** That pair does not commute: with no registry yet, `set_reactions`
      then the electrolyte step succeeds and the reverse raises. When the
      electrolyte step does not read the registry, it succeeds either way. */
  lemma ReactionsBeforeElectrolyte(o: Options, r: Reactions, m: map<Key, Submodel>)
    ensures ReadsRegistry(ElectrolyteStep, o) ==>
      Exec(ElectrolyteStep, o, r, Exec(ReactionsStep, o, r, Running(false, m))) == Running(true, m + ElectrolyteEntries(o, r))
    ensures ReadsRegistry(ElectrolyteStep, o) ==>
      Exec(ReactionsStep, o, r, Exec(ElectrolyteStep, o, r, Running(false, m))) == Failed
    ensures !ReadsRegistry(ElectrolyteStep, o) ==>
      Exec(ReactionsStep, o, r, Exec(ElectrolyteStep, o, r, Running(false, m))) == Running(true, m + ElectrolyteEntries(o, r))
  {
  }

  /** Two orders of the same distinct steps that both succeed give the
      same state. */
  lemma RunOrderIrrelevant(a: seq<Step>, b: seq<Step>, o: Options, r: Reactions, registered: bool, m: map<Key, Submodel>)
    requires Distinct(a) && Distinct(b)
    requires forall s :: s in a <==> s in b
    ensures ExecFrom(a, 0, o, r, Running(registered, m)).Running? && ExecFrom(b, 0, o, r, Running(registered, m)).Running? ==>
      ExecFrom(a, 0, o, r, Running(registered, m)) == ExecFrom(b, 0, o, r, Running(registered, m))
  {
    ExecIsRun(a, 0, o, r, registered, m);
    ExecIsRun(b, 0, o, r, registered, m);
    RunFromOrderIrrelevant(a, b, o, r, m);
    assert a[0..] == a && b[0..] == b;
  }

  /** The construction order, started on a fresh object, succeeds for every
      choice of options and yields the assembled map. */
  lemma ConstructionOrderRuns(o: Options, r: Reactions)
    ensures ExecFrom(ConstructionOrder, 0, o, r, Running(false, map[])) == Running(true, Assembled(o, r))
  {
    ExecIsRun(ConstructionOrder, 0, o, r, false, map[]);
    OrderedOnceRegistered(ConstructionOrder, 1, o);
    AssembledIsRun(o, r);
    assert ConstructionOrder[0..][0] == ReactionsStep;
  }
}
