# Single Particle Model: submodel selection

This project models how PyBaMM's lithium-ion Single Particle Model (SPM)
puts itself together. The constructor runs a fixed sequence of `set_*`
steps. Each step looks at the model options and writes submodel choices
into the model's submodel map under string keys:

- porosity and convection;
- the interface kinetics of both electrodes;
- the particle model of both electrodes;
- the electrode conductivity of both electrodes;
- the electrolyte conductivity and diffusion.

After the steps, the constructor builds the model, unless `build` is false.
Separately, the model's default geometry depends on the `dimensionality`
option.

Modules:

- `Options` (options.dfy): option values as Python objects (booleans,
  integers, strings, None), with the two comparisons the source uses:
  - the identity test `is False`, which only the boolean False passes;
  - `==`, where False and True compare equal to 0 and 1.
- `Submodels` (submodels.dfy): domains, the submodel choices as tags, and
  the keys of the submodel map. `KeyName` gives each key the source's
  string, and `KeyNameInjective` proves that distinct keys have distinct
  strings. So for the maps the steps build, a map over `Key` holds exactly
  what the source's map over strings holds. A submodel that a caller puts
  under some other string before building has no `Key`.
- `Assembly` (assembly.dfy): what each step writes (`Entries`) and which
  keys each step owns. It also defines running a sequence of steps, and
  `Assembled`, the map after the whole construction order. Runs happen on
  a state that also records whether `set_reactions` has run. The
  electrolyte step reads `self.reactions` in its "differential" and
  "algebraic" branches (spm.py lines 123 and 130), and a run that reaches
  that read first raises. The lemmas show:
  - every step writes only keys it owns;
  - no two steps share a key;
  - a step is idempotent;
  - two different steps commute, except `set_reactions` and an
    electrolyte step that reads the registry (that pair does not commute,
    and running the electrolyte step first fails);
  - two orders of the same steps that both succeed give the same result;
  - the construction order succeeds for all options;
  - the result of a run is an overlay of what its steps write;
  - the assembled map holds, under each key, what the owning step wrote.
- `Spm` (spm.dfy): class `SPM`. Its methods update the `submodels` field in
  place, one method per step except `set_reactions`, whose registry is a
  constructor parameter. The conductivity loop over the three domains
  is a `for` loop with its invariant. The constructor's postcondition is
  `submodels == Assembled(options, registry)`.
- `Geometries` (geometry.dfy): `default_geometry`.
- `Properties` (properties.dfy): what the assembled map holds for every
  choice of options, such as which kinetics go with which conductivity
  submodels. It also covers the model for surface form False with Fickian
  particles, and the differential surface-form model.

`spm.py` validates no option and raises no error of its own. The model
follows the code as written:

- an unrecognised surface form falls through to Butler-Volmer kinetics and
  writes no conductivity submodel;
- an unrecognised particle option writes no particle submodel;
- an unrecognised dimensionality gives no geometry (`None`).

The model states these fall-through outcomes as lemmas
(`UnrecognisedSurfaceForm`, `UnrecognisedParticle`, `NoGeometryOtherwise`).
The class docstring (spm.py lines 20-21) says that submodels cannot be
changed after the model is built. Nothing in `spm.py` enforces this.

## Model

| member | source | states |
|---|---|---|
| Spm.SPM.constructor | pybamm/models/full_battery_models/lithium_ion/spm.py:32-49 | the map after construction is the map the twelve steps yield in the source's order, starting from an empty map; the model is built exactly when `build` is true; options, name and reaction registry are kept |
| Spm.SPM.SetPorositySubmodel | pybamm/models/full_battery_models/lithium_ion/spm.py:53-55 | only the porosity key changes, and it holds constant porosity |
| Spm.SPM.SetConvectionSubmodel | pybamm/models/full_battery_models/lithium_ion/spm.py:57-59 | only the convection key changes, and it holds no convection |
| Spm.SPM.SetInterfacialSubmodel | pybamm/models/full_battery_models/lithium_ion/spm.py:61-77 | the old map overlaid with the interface entries for the options; nothing else changes |
| Spm.SPM.SetParticleSubmodel | pybamm/models/full_battery_models/lithium_ion/spm.py:79-94 | the old map overlaid with the particle entries for the options; nothing else changes |
| Spm.SPM.SetNegativeElectrodeSubmodel | pybamm/models/full_battery_models/lithium_ion/spm.py:96-100 | only the negative electrode key changes, and it holds leading-order Ohm on the negative electrode |
| Spm.SPM.SetPositiveElectrodeSubmodel | pybamm/models/full_battery_models/lithium_ion/spm.py:102-106 | only the positive electrode key changes, and it holds leading-order Ohm on the positive electrode |
| Spm.SPM.SetElectrolyteSubmodel | pybamm/models/full_battery_models/lithium_ion/spm.py:108-133 | the old map overlaid with the electrolyte entries (the conductivity branch chosen by surface form, then diffusion); nothing else changes |
| Spm.SPM.SetDomainConductivities | pybamm/models/full_battery_models/lithium_ion/spm.py:118-130 | after the loop over Negative, Separator and Positive, the map is the old map overlaid with one conductivity submodel per domain, of the chosen kind |
| Spm.SPM.SetExternalCircuitSubmodel | pybamm/models/full_battery_models/lithium_ion/spm.py:36 | only the external circuit key changes |
| Spm.SPM.SetTortuositySubmodels | pybamm/models/full_battery_models/lithium_ion/spm.py:38 | only the two tortuosity keys change |
| Spm.SPM.SetThermalSubmodel | pybamm/models/full_battery_models/lithium_ion/spm.py:45 | only the thermal key changes |
| Spm.SPM.SetCurrentCollectorSubmodel | pybamm/models/full_battery_models/lithium_ion/spm.py:46 | only the current collector key changes |
| Spm.SPM.BuildModel | pybamm/models/full_battery_models/lithium_ion/spm.py:48-49 | afterwards the model is built; the submodel map is untouched |
| Submodels.Lower | pybamm/models/full_battery_models/lithium_ion/spm.py:121 | `domain.lower()`: the result has the same length, contains no capital letter, keeps every other character, and turns each capital into the small letter at the same place in the alphabet |
| Submodels.NegativeConductivityKeyName | pybamm/models/full_battery_models/lithium_ion/spm.py:119-121 | the Negative domain's conductivity key is "leading-order " + "negative" + " electrolyte conductivity" |
| Submodels.SeparatorConductivityKeyName | pybamm/models/full_battery_models/lithium_ion/spm.py:119-121 | the Separator domain's conductivity key is "leading-order " + "separator" + " electrolyte conductivity" |
| Submodels.PositiveConductivityKeyName | pybamm/models/full_battery_models/lithium_ion/spm.py:119-121 | the Positive domain's conductivity key is "leading-order " + "positive" + " electrolyte conductivity" |
| Submodels.KeyOfKeyName | pybamm/models/full_battery_models/lithium_ion/spm.py:55-133 | every key's string decodes back to that key |
| Submodels.KeyNameInjective | pybamm/models/full_battery_models/lithium_ion/spm.py:55-133 | two keys have the same string if and only if they are the same key, including the three per-domain conductivity keys built from the lower-cased domain name |
| Submodels.DomainConductivityKeysComplete | pybamm/models/full_battery_models/lithium_ion/spm.py:119-130 | every domain's conductivity key is among the three per-domain keys |
| Assembly.OwnerOf | pybamm/models/full_battery_models/lithium_ion/spm.py:35-46 | each key a step may write has that step as its one owner |
| Assembly.OwnKeysDisjoint | pybamm/models/full_battery_models/lithium_ion/spm.py:35-46 | two different steps never own the same key |
| Assembly.InterfaceEntriesSpec | pybamm/models/full_battery_models/lithium_ion/spm.py:61-77 | both interface keys are written, always for the main reaction; inverse Butler-Volmer exactly when surface form `is False`, Butler-Volmer exactly otherwise, on each electrode |
| Assembly.ParticleEntriesSpec | pybamm/models/full_battery_models/lithium_ion/spm.py:79-94 | particle keys are written exactly for "Fickian diffusion" or "fast diffusion"; both or neither; the same variant on both electrodes, each on its own domain |
| Assembly.DomainConductivitiesSpec | pybamm/models/full_battery_models/lithium_ion/spm.py:118-130 | exactly the three per-domain keys, each holding the submodel for its own domain and the reaction registry |
| Assembly.DomainConductivitiesOverAll | pybamm/models/full_battery_models/lithium_ion/spm.py:119-124 | visiting Negative, Separator and Positive in the loop's order writes exactly the three per-domain entries |
| Assembly.ElectrolyteEntriesSpec | pybamm/models/full_battery_models/lithium_ion/spm.py:108-133 | diffusion is always constant concentration; the single conductivity key is written if and only if surface form `is False`; every per-domain key is written if and only if surface form is "differential" or "algebraic", with the matching submodel; no key outside the electrolyte's own |
| Assembly.ElectrolyteEntriesCount | pybamm/models/full_battery_models/lithium_ion/spm.py:113-133 | the step writes 2 entries when surface form is False (1 conductivity + diffusion), 4 for "differential" or "algebraic" (3 + diffusion), and 1 otherwise |
| Assembly.EntriesWithinOwnKeys | pybamm/models/full_battery_models/lithium_ion/spm.py:53-133 | each step writes only keys it owns, whatever the options |
| Assembly.ApplyIsOverlay | pybamm/models/full_battery_models/lithium_ion/spm.py:53-133 | a step's keyed assignments amount to overlaying its entries on the map |
| Assembly.ApplyFrame | pybamm/models/full_battery_models/lithium_ion/spm.py:53-133 | a step leaves every key it does not own as it was (present with the same value, or absent), and the keys it writes hold what it wrote |
| Assembly.ApplyIdempotent | pybamm/models/full_battery_models/lithium_ion/spm.py:53-133 | running a step again before build leaves the map as running it once |
| Assembly.ApplyCommutes | pybamm/models/full_battery_models/lithium_ion/spm.py:35-46 | on the submodel map alone, with the registry fixed, two different steps give the same map in either order (no two share a key) |
| Assembly.RunIsOverlay | pybamm/models/full_battery_models/lithium_ion/spm.py:35-46 | running steps in sequence overlays everything they write on the starting map |
| Assembly.RunFrame | pybamm/models/full_battery_models/lithium_ion/spm.py:35-46 | a key that no remaining step owns keeps its entry or its absence |
| Assembly.RunIdempotent | pybamm/models/full_battery_models/lithium_ion/spm.py:35-46 | re-running the whole step sequence changes nothing more |
| Assembly.MergeLookup | pybamm/models/full_battery_models/lithium_ion/spm.py:35-46 | with no step repeated, each key written holds what its one writing step wrote, and every key in the merge was written by some step |
| Assembly.RunFromOrderIrrelevant | pybamm/models/full_battery_models/lithium_ion/spm.py:35-46 | on the submodel map alone, with the registry fixed, two orderings of the same distinct steps give the same map |
| Assembly.ExecIsRun | pybamm/models/full_battery_models/lithium_ion/spm.py:35-130 | a run on the full state succeeds if and only if no step reads the registry before `set_reactions` has run; a successful run yields the map `RunFrom` computes, and has run `set_reactions` exactly when some step was `set_reactions` or it had already run |
| Assembly.OrderedOnceRegistered | pybamm/models/full_battery_models/lithium_ion/spm.py:35-130 | once `set_reactions` has run, no order of the remaining steps fails |
| Assembly.ElectrolyteBeforeReactionsFails | pybamm/models/full_battery_models/lithium_ion/spm.py:35-130 | on a fresh object, a run that reaches a registry-reading electrolyte step before any `set_reactions` fails |
| Assembly.ExecCommutes | pybamm/models/full_battery_models/lithium_ion/spm.py:35-130 | on the full state, two different steps commute unless one is `set_reactions` and the other an electrolyte step that reads the registry |
| Assembly.ReactionsBeforeElectrolyte | pybamm/models/full_battery_models/lithium_ion/spm.py:35-130 | on a fresh object, `set_reactions` then a registry-reading electrolyte step succeeds with the electrolyte entries written, and the reverse order fails; the electrolyte step with surface form False succeeds in either order |
| Assembly.RunOrderIrrelevant | pybamm/models/full_battery_models/lithium_ion/spm.py:35-46 | two orderings of the same distinct steps that both succeed reach the same state |
| Assembly.ConstructionOrderRuns | pybamm/models/full_battery_models/lithium_ion/spm.py:35-46 | the constructor's order, started on a fresh object, succeeds for every choice of options and yields the assembled map with the registry set |
| Assembly.ConstructionOrderComplete | pybamm/models/full_battery_models/lithium_ion/spm.py:35-46 | the construction order runs every step exactly once |
| Assembly.RunLookup | pybamm/models/full_battery_models/lithium_ion/spm.py:35-46 | in a run of distinct steps from an empty map, a key the step owns is present exactly when the step wrote it, and holds what the step wrote |
| Assembly.AssembledIsRun | pybamm/models/full_battery_models/lithium_ion/spm.py:33-46 | the constructor's map equals running the construction order step by step from an empty map |
| Assembly.AssembledLookup | pybamm/models/full_battery_models/lithium_ion/spm.py:33-46 | each key of the assembled map holds what its owning step wrote, and a key its owner did not write is absent |
| Geometries.DefaultGeometry | pybamm/models/full_battery_models/lithium_ion/spm.py:135-143 | a geometry exists exactly when dimensionality `==` 0, 1 or 2, and it is the 1D, 1+1D or 2+1D pair of macro and micro names accordingly |
| Geometries.LegalHasGeometry | pybamm/models/full_battery_models/lithium_ion/spm.py:137-143 | every recognised dimensionality (0, 1 or 2) has a geometry |
| Geometries.GeometryOfBoolean | pybamm/models/full_battery_models/lithium_ion/spm.py:138-141 | a boolean dimensionality gives the geometry of 0 or 1, since Python's `==` compares it as a number |
| Geometries.NoGeometryOtherwise | pybamm/models/full_battery_models/lithium_ion/spm.py:137-143 | a text value, None, or a number outside 0 to 2 gives no geometry |
| Properties.AssembledPorosityAndConvection | pybamm/models/full_battery_models/lithium_ion/spm.py:53-59 | the built map always holds constant porosity and no convection |
| Properties.AssembledElectrodes | pybamm/models/full_battery_models/lithium_ion/spm.py:96-106 | the built map always holds leading-order Ohm on both electrodes |
| Properties.AssembledDiffusion | pybamm/models/full_battery_models/lithium_ion/spm.py:131-133 | the built map always holds constant-concentration diffusion |
| Properties.AssembledInterfaces | pybamm/models/full_battery_models/lithium_ion/spm.py:61-77 | the built map has both interface keys; inverse Butler-Volmer on each electrode if and only if surface form `is False`, Butler-Volmer if and only if not |
| Properties.AssembledParticles | pybamm/models/full_battery_models/lithium_ion/spm.py:79-94 | the built map has particle submodels exactly for the two recognised options, on both electrodes or neither, of the chosen variant |
| Properties.AssembledConductivity | pybamm/models/full_battery_models/lithium_ion/spm.py:113-130 | the built map has the single conductivity key if and only if surface form `is False`; each per-domain key if and only if "differential" or "algebraic", holding that domain's submodel |
| Properties.LegalKineticsMatchConductivity | pybamm/models/full_battery_models/lithium_ion/spm.py:61-130 | for a recognised surface form (False, "differential" or "algebraic"), inverse Butler-Volmer kinetics appear if and only if the single conductivity submodel does, and Butler-Volmer if and only if the per-domain ones do |
| Properties.UnrecognisedSurfaceForm | pybamm/models/full_battery_models/lithium_ion/spm.py:63-133 | any other surface form (True, say) gives Butler-Volmer kinetics on both electrodes, no conductivity submodel and still diffusion |
| Properties.UnrecognisedParticle | pybamm/models/full_battery_models/lithium_ion/spm.py:81-94 | any other particle option gives no particle submodel |
| Properties.FalseFickianModel | pybamm/models/full_battery_models/lithium_ion/spm.py:61-143 | the options (surface form False, "Fickian diffusion", dimensionality 0) give inverse Butler-Volmer on both electrodes, Fickian particles on both electrodes, the single conductivity submodel and the 1D geometry |
| Properties.DifferentialModel | pybamm/models/full_battery_models/lithium_ion/spm.py:61-124 | "differential" surface form gives a differential conductivity submodel on every domain, no single conductivity submodel, and Butler-Volmer kinetics on both electrodes |

## Left out

- The base model class is not part of this model. Its constructor argument
  handling, its option defaults and validation, and the parameter set
  `self.param` are not modelled. Submodels are tags carrying their domain,
  reaction name and registry, not the equation objects.
- Spm.SPM.constructor: the submodel map the base model's constructor leaves is taken to be empty.
- The option record `FalseFickianOptions` is named after its values; whether these are the base model's defaults is not part of this model.
- The run state (`Assembly.RunState`) records only whether `set_reactions` has run: the registry it leaves is taken to be the same every time. A registry-reading step before `set_reactions` becomes a failed run; in Python it raises `AttributeError`, unless the base model sets `self.reactions` beforehand, which is not part of this model.
- Spm.SPM.SetExternalCircuitSubmodel: the base model's choice is not visible, so it writes a placeholder under the assumed key "external circuit".
- Spm.SPM.SetTortuositySubmodels: writes placeholders under the assumed keys "electrolyte tortuosity" and "electrode tortuosity".
- Spm.SPM.SetThermalSubmodel: writes a placeholder under the assumed key "thermal".
- Spm.SPM.SetCurrentCollectorSubmodel: writes a placeholder under the assumed key "current collector".
- Spm.SPM.constructor: the `set_reactions` step is represented by the reaction registry passed in as a parameter, and its contents are opaque.
- Spm.SPM.BuildModel: only the transition to built is modelled. Collecting the submodels' variables and equations is not part of this model, and neither is the docstring's rule (spm.py lines 20-21) that submodels cannot be changed after build.
- Registering the citation (spm.py line 51) is a side effect on a global registry and is left out.
- Option validation is not part of this model: `spm.py` raises no error for an unrecognised option and falls through instead, and the model follows the code.
- Submodels.Lower: lower-cases ASCII letters only; the domain names passed to it are ASCII.
- Floating-point option values, such as a dimensionality of 0.0 comparing equal to 0, are not modelled; option numbers are integers.
- The submodel map's insertion order is not modelled (a `map` has none). The build step's dependence on that order is not part of this model.
- The lead-acid LOQS unit test is a numerical test and is not modelled.
