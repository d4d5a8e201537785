/** The submodels the Single Particle Model registers, the domains they live
    on, and the string keys under which they are stored. */
module Submodels {
  import opened Options

  /** The three regions of the cell. */
  datatype Domain = Negative | Separator | Positive

  /** The domain as the string passed to submodel constructors. */
  function DomainName(d: Domain): string
  {
    match d
    case Negative => "Negative"
    case Separator => "Separator"
    case Positive => "Positive"
  }

  /** The order in which the per-domain conductivity loop visits the domains. */
  const AllDomains: seq<Domain> := [Negative, Separator, Positive]

  /** Lower-casing of one character, for the ASCII letters. */
  function LowerChar(c: char): char
  {
    if 'A' <= c <= 'Z' then (c as int + 32) as char else c
  }

  /** Python's `str.lower`, restricted to ASCII: no capital letter is
      left, every other character is kept, and each capital becomes the
      small letter at the same place in the alphabet. */
  function Lower(s: string): (r: string)
    ensures |r| == |s|
    ensures forall i :: 0 <= i < |r| ==> !('A' <= r[i] <= 'Z')
    ensures forall i :: 0 <= i < |s| && !('A' <= s[i] <= 'Z') ==> r[i] == s[i]
    ensures forall i :: 0 <= i < |s| && 'A' <= s[i] <= 'Z' ==> r[i] as int - 'a' as int == s[i] as int - 'A' as int
  {
    seq(|s|, i requires 0 <= i < |s| => LowerChar(s[i]))
  }

  /** The reaction registry set up by the base model's `set_reactions`.
      Its contents are not visible here; the conductivity submodels only
      carry it along. */
  datatype Reactions = Reactions(active: map<Domain, set<string>>)

  /** The name of the one reaction the interfacial submodels model. */
  const MainReaction := "lithium-ion main"

  /** Aspects whose submodels the base model chooses; they are known here
      only by the key they occupy. */
  datatype InheritedAspect =
    | ExternalCircuit
    | ElectrolyteTortuosity
    | ElectrodeTortuosity
    | Thermal
    | CurrentCollector

  /** One submodel constructor call, with the arguments other than the
      shared parameter set. */
  datatype Submodel =
    | ConstantPorosity
    | NoConvection
    | InverseButlerVolmer(domain: Domain, reaction: string)
    | ButlerVolmer(domain: Domain, reaction: string)
    | FickianSingleParticle(domain: Domain)
    | FastSingleParticle(domain: Domain)
    | OhmLeadingOrder(domain: Domain)
    | LeadingOrderConductivity
    | LeadingOrderDifferential(domain: Domain, reactions: Reactions)
    | LeadingOrderAlgebraic(domain: Domain, reactions: Reactions)
    | ConstantConcentration
    | Inherited(aspect: InheritedAspect)

  /** A key of the submodel map. The source keys the map by strings;
      `KeyName` gives each key its string, and `KeyNameInjective` shows
      that distinct keys have distinct strings, so for the maps the steps
      build a map over `Key` holds exactly what the map over strings
      holds. A string a caller stores under by hand has no `Key`. */
  datatype Key =
    | PorosityKey
    | ConvectionKey
    | NegativeInterfaceKey
    | PositiveInterfaceKey
    | NegativeParticleKey
    | PositiveParticleKey
    | NegativeElectrodeKey
    | PositiveElectrodeKey
    | ConductivityKey
    | DomainConductivityKey(domain: Domain)
    | DiffusionKey
    | ExternalCircuitKey
    | ElectrolyteTortuosityKey
    | ElectrodeTortuosityKey
    | ThermalKey
    | CurrentCollectorKey

  /** The string under which the source stores each submodel. The per-domain
      conductivity key is built from the lower-cased domain name. The five
      keys of the steps inherited from the base model (external circuit,
      the two tortuosities, thermal, current collector) are assumed, since
      the base model is not part of this model. */
  function KeyName(k: Key): string
  {
    match k
    case PorosityKey => "porosity"
    case ConvectionKey => "convection"
    case NegativeInterfaceKey => "negative interface"
    case PositiveInterfaceKey => "positive interface"
    case NegativeParticleKey => "negative particle"
    case PositiveParticleKey => "positive particle"
    case NegativeElectrodeKey => "negative electrode"
    case PositiveElectrodeKey => "positive electrode"
    case ConductivityKey => "leading-order electrolyte conductivity"
    case DomainConductivityKey(d) => "leading-order " + Lower(DomainName(d)) + " electrolyte conductivity"
    case DiffusionKey => "electrolyte diffusion"
    case ExternalCircuitKey => "external circuit"
    case ElectrolyteTortuosityKey => "electrolyte tortuosity"
    case ElectrodeTortuosityKey => "electrode tortuosity"
    case ThermalKey => "thermal"
    case CurrentCollectorKey => "current collector"
  }

  /** The three per-domain conductivity keys, with the lower-cased domain
      name spelled out. */
  lemma NegativeConductivityKeyName()
    ensures KeyName(DomainConductivityKey(Negative)) == "leading-order " + "negative" + " electrolyte conductivity"
  {
    LowerNegative();
  }

  lemma SeparatorConductivityKeyName()
    ensures KeyName(DomainConductivityKey(Separator)) == "leading-order " + "separator" + " electrolyte conductivity"
  {
    LowerSeparator();
  }

  lemma PositiveConductivityKeyName()
    ensures KeyName(DomainConductivityKey(Positive)) == "leading-order " + "positive" + " electrolyte conductivity"
  {
    LowerPositive();
  }

  lemma LowerNegative()
    ensures Lower("Negative") == "negative"
  {
    var l := Lower("Negative");
    assert l[0] == 'n';
    assert l[1] == 'e';
    assert l[2] == 'g';
    assert l[3] == 'a';
    assert l[4] == 't';
    assert l[5] == 'i';
    assert l[6] == 'v';
    assert l[7] == 'e';
  }

  lemma LowerSeparator()
    ensures Lower("Separator") == "separator"
  {
    var l := Lower("Separator");
    assert l[0] == 's';
    assert l[1] == 'e';
    assert l[2] == 'p';
    assert l[3] == 'a';
    assert l[4] == 'r';
    assert l[5] == 'a';
    assert l[6] == 't';
    assert l[7] == 'o';
    assert l[8] == 'r';
  }

  lemma LowerPositive()
    ensures Lower("Positive") == "positive"
  {
    var l := Lower("Positive");
    assert l[0] == 'p';
    assert l[1] == 'o';
    assert l[2] == 's';
    assert l[3] == 'i';
    assert l[4] == 't';
    assert l[5] == 'i';
    assert l[6] == 'v';
    assert l[7] == 'e';
  }

  /** Recovers a key from its string by looking only at the length and at
      a few characters. */
  function KeyOf(s: string): (k: Option<Key>)
  {
    match |s|
    case 7 => Some(ThermalKey)
    case 8 => Some(PorosityKey)
    case 10 => Some(ConvectionKey)
    case 16 => Some(ExternalCircuitKey)
    case 17 =>
      if s[0] == 'n' then Some(NegativeParticleKey)
      else if s[0] == 'p' then Some(PositiveParticleKey)
      else Some(CurrentCollectorKey)
    case 18 =>
      if s[0] == 'n' && s[9] == 'i' then Some(NegativeInterfaceKey)
      else if s[0] == 'n' then Some(NegativeElectrodeKey)
      else if s[9] == 'i' then Some(PositiveInterfaceKey)
      else Some(PositiveElectrodeKey)
    case 20 => Some(ElectrodeTortuosityKey)
    case 21 => Some(DiffusionKey)
    case 22 => Some(ElectrolyteTortuosityKey)
    case 38 => Some(ConductivityKey)
    case 47 => if s[14] == 'n' then Some(DomainConductivityKey(Negative)) else Some(DomainConductivityKey(Positive))
    case 48 => Some(DomainConductivityKey(Separator))
    case _ => None
  }

  lemma KeyOfKeyName(k: Key)
    ensures KeyOf(KeyName(k)) == Some(k)
  {
    if k.DomainConductivityKey? {
      DomainKeyOfKeyName(k.domain);
    }
  }

  /** The per-domain keys are told apart by their length and by the first
      letter of the domain name. */
  lemma DomainKeyOfKeyName(d: Domain)
    ensures KeyOf(KeyName(DomainConductivityKey(d))) == Some(DomainConductivityKey(d))
  {
    var s := KeyName(DomainConductivityKey(d));
    assert |s| == 39 + |DomainName(d)|;
    assert s[14] == LowerChar(DomainName(d)[0]);
  }

  /** Distinct keys are stored under distinct strings. */
  lemma KeyNameInjective(k: Key, l: Key)
    ensures KeyName(k) == KeyName(l) <==> k == l
  {
    KeyOfKeyName(k);
    KeyOfKeyName(l);
  }

  /** The three per-domain conductivity keys. */
  function DomainConductivityKeys(): set<Key>
  {
    {DomainConductivityKey(Negative), DomainConductivityKey(Separator), DomainConductivityKey(Positive)}
  }

  lemma DomainConductivityKeysComplete()
    ensures forall d: Domain :: DomainConductivityKey(d) in DomainConductivityKeys()
  {
    forall d: Domain ensures DomainConductivityKey(d) in DomainConductivityKeys() {
      match d
      case Negative =>
      case Separator =>
      case Positive =>
    }
  }
}
