# Atelier Schork studio: content migrations and preview formatters

This project models the hand-written logic of a Sanity content studio for an
artists' atelier:

- the document migration rules, each a function from a stored document to a
  list of field patches (`set`, `setIfMissing`, `unset`) or to a whole
  replacement document;
- the scripted person → artist reclassification, with its per-person
  transaction and success/error counting;
- the backup inventory, which groups documents by type, counts them and sorts
  the counts;
- the small deterministic formatters of the schema previews and the artist
  slug.

Documents are maps from field names to JSON-like values (`Json.Value`). An
absent field stands for JavaScript's `undefined`. JavaScript truthiness,
template-literal text conversion and the TypeErrors that come from reading a
property of `null` are written out, so a rule that would throw returns
`Throws`. The migration runner of `sanity/migrate` is not part of this model.
`Patches.ApplyPatches` gives the patch semantics the rules rely on: `set`
overwrites, `setIfMissing` writes only an absent or null field, `unset`
removes, and the patches of one list apply in order.

Modules:

| module | file | models |
|---|---|---|
| `Text` | text.dfy | `toLowerCase` (ASCII), `includes`, `startsWith`, `replace` with a string pattern, `trim`, `join`, `String(n)`, `parseInt` |
| `Json` | json.dfy | values, property access, truthiness, `||`, `${…}`, `Array.prototype.map` with a throwing callback |
| `Patches` | patches.dfy | `at(field, op)`, the result of a migration's `document`, patch application |
| `ReferenceMaps` | reference_maps.dfy | the two identifier tables and the `x._ref && MAP[x._ref]` lookup |
| `ArtistToPerson` | artist_to_person.dfy | migrations/migrate-artist-to-person.ts |
| `UpdateProjectReferences` | update_project_references.dfy | migrations/update-project-references.ts |
| `FixProjectReferences` | fix_project_references.dfy | migrations/fix-project-references.ts |
| `LegacyProjects` | legacy_projects.dfy | migrations/migrate-legacy-projects.ts (imperative: `operations.push`) |
| `PersonToArtist` | person_to_artist.dfy | migrations/migrate-person-to-artist.ts |
| `PersonToArtistV2` | person_to_artist_v2.dfy | migrations/migrate-person-to-artist-v2.ts |
| `PersonToArtistScript` | person_to_artist_script.dfy | migrations/02-migrate-person-to-artist.ts (the `forEach`, the transaction builder class and the counting loop are imperative) |
| `Backup` | backup.dfy | migrations/01-backup-current-data.ts (the grouping `reduce` and the counts loop are imperative) |
| `Selection` | selection.dfy | what a preview `select` hands to `prepare` |
| `ArtistSchema`, `ProjectLegacySchema`, `ArtworkSchema`, `CategorySchema`, `MediaTypeSchema`, `ProjectTypeSchema` | *_schema.dfy | the `prepare`, slug `source` and `hidden` callbacks of the schema files |

## Model

| member | source | states |
|---|---|---|
| Text.Lower | migrations/02-migrate-person-to-artist.ts:68 | `toLowerCase` keeps the length and lower-cases each character in place |
| Text.LowerConcat | migrations/02-migrate-person-to-artist.ts:68 | lower-casing distributes over concatenation |
| Text.IndexOfFrom | migrations/02-migrate-person-to-artist.ts:129 | the result is the first occurrence at or after the start, or there is none |
| Text.ReplaceFirst | migrations/02-migrate-person-to-artist.ts:129 | `replace` with a string pattern; characterised by Text.StripLeadingPattern and Text.ReplaceAbsent |
| Text.StripLeadingPattern | migrations/02-migrate-person-to-artist.ts:129 | `replace('drafts.', '')` on an id that starts with the prefix removes exactly that prefix |
| Text.ReplaceAbsent | migrations/02-migrate-person-to-artist.ts:129 | `replace` on a string without the pattern returns it unchanged |
| Text.TrimStart | schemaTypes/artist.ts:73 | the result is a suffix that starts with a non-space, and all removed characters are white space |
| Text.TrimEnd | schemaTypes/artist.ts:73 | the result is a prefix that ends with a non-space, and all removed characters are white space |
| Text.Trim | schemaTypes/artist.ts:350 | the trimmed text is a slice of the input that neither starts nor ends with white space, and every character removed before or after it is white space |
| Text.TrimUnpadded | schemaTypes/artist.ts:73 | `trim` leaves a string without surrounding white space unchanged |
| Text.TrimStartConcat | schemaTypes/artist.ts:73 | leading white space of `s + t` is stripped from `s`, and from `t` only when `s` is all white space |
| Text.TrimJoin | schemaTypes/artist.ts:73 | trimming "s t" strips the leading white space of `s` and the trailing white space of `t`; when one of them is all white space, the result is the other trimmed |
| Text.TrimStartJoin | schemaTypes/artist.ts:73 | the leading trim of "s t" is that of `t` when `s` is all white space, else the leading trim of `s` followed by " t" |
| Text.TrimStartSpace | schemaTypes/artist.ts:73 | a leading space is removed by the leading trim |
| Text.TrimEndJoin | schemaTypes/artist.ts:73 | the trailing trim of "u t" is `u` and " " before the trailing trim of `t`, or the trailing trim of `u` when `t` is all white space |
| Text.AllSpaceStart | schemaTypes/artist.ts:73 | a string that is all white space has nothing left after the leading trim |
| Text.Join | schemaTypes/artist.ts:347 | `.join(sep)`; what it gives for the subtitle parts is stated by ArtistSchema.SubtitleCases |
| Text.TrimEndConcat | schemaTypes/artist.ts:73 | trailing white space of `s + t` is stripped from `t`, and from `s` only when `t` is all white space |
| Text.NatText | migrations/01-backup-current-data.ts:55-57 | `String(n)` of a natural number is a non-empty string of decimal digits that denotes `n`, with no leading zero |
| Text.DigitChar | migrations/01-backup-current-data.ts:55-57 | the digit character written for a value below ten is a decimal digit with that value |
| Text.IntText | migrations/01-backup-current-data.ts:55-57 | `String(n)` of a negative integer is a minus sign before the text of its magnitude; otherwise the natural-number text |
| Text.DigitValue | migrations/migrate-legacy-projects.ts:22 | a character has a value exactly when it is a decimal digit, or a hex letter in base 16; the value is below the radix, and a decimal digit has its decimal value |
| Text.DigitRun | migrations/migrate-legacy-projects.ts:22 | the digit run that `parseInt` reads is maximal: all digits, then a non-digit or the end |
| Text.Signed | migrations/migrate-legacy-projects.ts:22 | `parseInt` fails exactly when no digits follow the sign, and a minus sign negates the value |
| Text.ParseInt | migrations/migrate-legacy-projects.ts:22 | `parseInt` without a radix; characterised by Text.ParseFourDigits, Text.ParseUnsigned and Text.ParseNoDigits |
| Text.ParseUnsigned | migrations/migrate-legacy-projects.ts:22 | text that starts with two decimal digits parses as its leading decimal digit run |
| Text.NoLeadingSpace | migrations/migrate-legacy-projects.ts:22 | text that starts with a digit has no leading white space to skip |
| Text.UnsignedText | migrations/migrate-legacy-projects.ts:22 | text without a leading sign parses as a non-negative number |
| Text.DecimalText | migrations/migrate-legacy-projects.ts:22 | a second character that is a decimal digit rules out the `0x` prefix, so the text is read in base 10 |
| Text.FourDigitRun | migrations/migrate-legacy-projects.ts:22 | four decimal digits form a digit run of length four |
| Text.FourDigitsValue | migrations/migrate-legacy-projects.ts:22 | four digits denote the number 1000a + 100b + 10c + d |
| Text.ParseFourDigits | migrations/migrate-legacy-projects.ts:22 | `parseInt` of a four-digit year is that year |
| Text.ReadFourDigits | migrations/migrate-legacy-projects.ts:22 | reading four decimal digits yields 1000a + 100b + 10c + d |
| Text.ParseNoDigits | migrations/migrate-legacy-projects.ts:22 | text starting with neither white space, a sign nor a digit parses to `NaN` (`None`) |
| Json.DocExtensional | migrations/migrate-person-to-artist-v2.ts:20-60 | two documents with the same field values are equal |
| Json.Or | migrations/migrate-person-to-artist-v2.ts:29-33 | `o \|\| fallback` is `o` when it is truthy, else the fallback |
| Json.Prop | migrations/fix-project-references.ts:21 | reading a property throws exactly on `null`/`undefined`; it is present, with the field's value, exactly when the value is an object that has the field |
| Json.JsText | migrations/01-backup-current-data.ts:55-57 | `${undefined}` is "undefined", `${null}` is "null", a string is its own text, a boolean is "true" or "false", a number is its decimal text and an object is "[object Object]" |
| Json.Pick | migrations/migrate-person-to-artist-v2.ts:26-28 | an undefined property is dropped from an object literal, a defined one is copied |
| Json.MapArray | migrations/update-project-references.ts:29-37 | `.map` succeeds exactly when no element throws, and then keeps length and order with each element mapped in place |
| Patches.SetPatchValue | migrations/migrate-artist-to-person.ts:35 | `at('_ref', set(id))` used as data is an object with only `path` and `op`, whose `op.value` is the id |
| Patches.ApplyPatch | migrations/migrate-legacy-projects.ts:23-59 | `set` writes, `setIfMissing` writes only an absent or null field and otherwise changes nothing, `unset` removes; no other field changes |
| Patches.ApplySingle | migrations/update-project-references.ts:39 | a one-patch list applies that patch |
| Patches.ApplyConcat | migrations/migrate-legacy-projects.ts:18-62 | applying a concatenation applies the first list, then the second |
| Patches.ApplyUntouched | migrations/migrate-legacy-projects.ts:18-62 | fields that no patch targets keep their value |
| Patches.SettledPreserved | migrations/migrate-person-to-artist.ts:29-52 | a field settled for a `setIfMissing` stays settled under further `setIfMissing` patches |
| Patches.ApplySaturates | migrations/migrate-person-to-artist.ts:29-52 | after a `setIfMissing` list, every field it targets is settled |
| Patches.SaturatedFixed | migrations/migrate-person-to-artist.ts:29-52 | a `setIfMissing` list over settled fields changes nothing |
| Patches.SetIfMissingIdempotent | migrations/migrate-person-to-artist.ts:29-52 | applying a `setIfMissing`-only list twice equals applying it once |
| Patches.SetIfMissingKeepsPresent | migrations/migrate-person-to-artist.ts:29-52 | a `setIfMissing`-only list never overwrites a field that is set and not null |
| ReferenceMaps.MappedRef | migrations/update-project-references.ts:30 | the lookup throws exactly on a null element; a hit is a non-empty table value for the element's `_ref` as text; an element without `_ref` is unmapped |
| ReferenceMaps.TablesDisjoint | migrations/update-project-references.ts:11-15 | in each table no identifier is both a key and a value |
| ReferenceMaps.TablesChain | migrations/migrate-artist-to-person.ts:5-12 | every artist that a person was mapped to is mapped on to a person, never back to the original one |
| ReferenceMaps.SpreadRewrite | migrations/update-project-references.ts:29-37 | a mapped element keeps all its fields except `_ref`, which takes the new id; any other element is returned unchanged; a null one throws |
| ArtistToPerson.FirstStep | migrations/migrate-artist-to-person.ts:32-95 | the step found is the first whose type and field match, and none before it matches |
| ArtistToPerson.Migrate | migrations/migrate-artist-to-person.ts:32-95 | the document function as written; characterised by ArtistToPerson.NoChangeIffNoStep, FirstStepOnly and StepResult |
| ArtistToPerson.Run | migrations/migrate-artist-to-person.ts:24 | restricting the rule to the five registered types changes nothing: the rule already ignores every other type |
| ArtistToPerson.NoChangeIffNoStep | migrations/migrate-artist-to-person.ts:97 | the rule returns nothing exactly when no (type, field) step matches |
| ArtistToPerson.FirstStepOnly | migrations/migrate-artist-to-person.ts:32-95 | only the first matching step acts: one `set` on that step's field, or an exception |
| ArtistToPerson.CreatorsShadowCollaborators | migrations/migrate-artist-to-person.ts:43-66 | a project with truthy `creators` never has `collaborators` rewritten in the same pass |
| ArtistToPerson.StepResult | migrations/migrate-artist-to-person.ts:33-39 | the acting step throws exactly when its field is not an array or an element throws; otherwise the new array has the same length and order, with each element rewritten in place |
| ArtistToPerson.AsWrittenElements | migrations/migrate-artist-to-person.ts:34-37 | as written: a null element throws; an unmapped element is kept; a mapped element becomes a patch object with no `_type`, `_ref` or `_key` |
| ArtistToPerson.AsWrittenLosesReference | migrations/migrate-artist-to-person.ts:43-53 | on a project whose creator is a mapped artist, the rule as written leaves no reference in `creators` |
| ArtistToPerson.IntendedKeepsReferences | migrations/migrate-artist-to-person.ts:34-35 | with the intended rewrite every element keeps its fields, and a mapped element only takes the person id as `_ref` |
| UpdateProjectReferences.Run | migrations/update-project-references.ts:19-20 | only projects with a non-empty `creators` array are changed, and every such project gets an edit or an exception |
| UpdateProjectReferences.Migrate | migrations/update-project-references.ts:24-39 | the document function; characterised by UpdateProjectReferences.MigrateCharacterised |
| UpdateProjectReferences.MigrateCharacterised | migrations/update-project-references.ts:24-39 | there is no change exactly when `creators` is falsy or not an array; the rule throws exactly when a creator is null; otherwise `creators` keeps its length and order, and each mapped creator keeps all its other fields and takes the artist id |
| UpdateProjectReferences.RewriteSettles | migrations/update-project-references.ts:11-15 | a rewritten creator is left alone by the rewrite |
| UpdateProjectReferences.Idempotent | migrations/update-project-references.ts:24-39 | a second run on the migrated document sets `creators` to the value it already has, so it changes nothing |
| FixProjectReferences.Malformed | migrations/fix-project-references.ts:21 | `item.op && item.path` throws exactly on a null item, and is true exactly when the item is an object whose `op` and `path` are both truthy |
| FixProjectReferences.Carries | migrations/fix-project-references.ts:26 | the filter keeps exactly the items whose `op.value` is truthy, and throws on a null item |
| FixProjectReferences.Repaired | migrations/fix-project-references.ts:27-31 | a kept item becomes a reference with `_ref` equal to `op.value` and the item's `_key` |
| FixProjectReferences.SomeMalformed | migrations/fix-project-references.ts:21 | `.some` finds no malformed item exactly when every item is a well-formed non-null value, and throws only if some item is null |
| FixProjectReferences.RepairAll | migrations/fix-project-references.ts:25-31 | the repair throws exactly when an item is null, and never lengthens the array |
| FixProjectReferences.FieldOutcomes | migrations/fix-project-references.ts:19-23 | a project array fails exactly when it holds a null item, and is left alone exactly when no item is malformed |
| FixProjectReferences.Migrate | migrations/fix-project-references.ts:18-54 | the document function: `creators` first, `collaborators` only when the creators need no repair; characterised by FieldOutcomes and RepairSettles |
| FixProjectReferences.RepairAllConcat | migrations/fix-project-references.ts:25-31 | the repair works item by item and keeps the kept items in order |
| FixProjectReferences.RepairOne | migrations/fix-project-references.ts:26-31 | one item is kept, as its repaired reference, exactly when it carries `op.value` |
| FixProjectReferences.RepairedWellFormed | migrations/fix-project-references.ts:27-31 | every repaired item is a reference that is not malformed and carries no `op.value` |
| FixProjectReferences.RepairSettles | migrations/fix-project-references.ts:33-54 | after a `collaborators` repair a second run changes nothing; after a `creators` repair a second run acts on `collaborators` exactly as the first would have done |
| FixProjectReferences.RepairRewritten | migrations/fix-project-references.ts:25-31 | an item that the artist-to-person rule rewrote is recovered as a bare reference to the person if it was mapped, and dropped if not |
| FixProjectReferences.RepairAfterArtistToPerson | migrations/fix-project-references.ts:25-31 | repairing that rule's output keeps exactly the mapped items, in order, as references without `_key`, and drops every unmapped reference |
| LegacyProjects.Year | migrations/migrate-legacy-projects.ts:22 | the year is `null` exactly when `parseInt` of the first four characters is `NaN`, and otherwise the number it parses |
| LegacyProjects.IsoYear | migrations/migrate-legacy-projects.ts:22 | a date starting with four digits yields that four-digit year |
| LegacyProjects.NameInjective | migrations/migrate-legacy-projects.ts:23-59 | the fields the rule targets are distinct |
| LegacyProjects.StepOp | migrations/migrate-legacy-projects.ts:21-60 | the rule only ever emits `setIfMissing` and `unset` |
| LegacyProjects.Slot | migrations/migrate-legacy-projects.ts:21-60 | each guarded `push` adds at most one patch, on its own field, exactly when its guard holds |
| LegacyProjects.EmitStep | migrations/migrate-legacy-projects.ts:18-62 | the pushes happen in the fixed order of the source |
| LegacyProjects.EmitPlain | migrations/migrate-legacy-projects.ts:18-62 | the list holds no callback, so it can be applied |
| LegacyProjects.LegacyOpsInOrder | migrations/migrate-legacy-projects.ts:18-62 | the list is the pushes concatenated in source order |
| LegacyProjects.LegacyOps | migrations/migrate-legacy-projects.ts:18-62 | the specified operation list; characterised by LegacyOpsInOrder, StepEffect and LegacyIdempotent |
| LegacyProjects.OpAmong | migrations/migrate-legacy-projects.ts:18-62 | the operation on a field among the first steps is never a callback; OpAmongAbsent and OpAmongStep give its value |
| LegacyProjects.Position | migrations/migrate-legacy-projects.ts:18-62 | every step occurs exactly once in the emission order, at its position |
| LegacyProjects.PushYear | migrations/migrate-legacy-projects.ts:21-30 | the year push appends `setIfMissing(year)` only for a non-empty string date |
| LegacyProjects.PushRename | migrations/migrate-legacy-projects.ts:37-40 | for a truthy `mainImage`, the push appends `setIfMissing(coverImage)` and then `unset(mainImage)` |
| LegacyProjects.PushUnset | migrations/migrate-legacy-projects.ts:43-60 | each legacy field is unset only when it is truthy |
| LegacyProjects.MigrateLegacyProject | migrations/migrate-legacy-projects.ts:18-62 | the `operations` array built by the pushes is the specified patch list |
| LegacyProjects.OpAmongAbsent | migrations/migrate-legacy-projects.ts:18-62 | a field not targeted by the first steps gets no operation from them |
| LegacyProjects.OpAmongStep | migrations/migrate-legacy-projects.ts:18-62 | each field's operation is the one its own step emits |
| LegacyProjects.SlotEffect | migrations/migrate-legacy-projects.ts:21-60 | one push changes only its own field, as its operation says |
| LegacyProjects.ApplyEmit | migrations/migrate-legacy-projects.ts:18-62 | applying the pushed patches changes each field by its own operation only |
| LegacyProjects.MigratedApplies | migrations/migrate-legacy-projects.ts:18-62 | the migrated document is the input with the rule's list applied |
| LegacyProjects.StepEffect | migrations/migrate-legacy-projects.ts:18-62 | each targeted field ends as its one operation makes it |
| LegacyProjects.LegacyUntouched | migrations/migrate-legacy-projects.ts:43-60 | no field other than the eleven targeted ones is touched |
| LegacyProjects.LegacyYears | migrations/migrate-legacy-projects.ts:21-30 | a string date fills a missing year with its year; a present year, or no string date, leaves the year alone |
| LegacyProjects.LegacyIsOngoing | migrations/migrate-legacy-projects.ts:33-34 | `isOngoing` always ends set and not null; if it was missing it becomes `status !== 'completed'`, otherwise it is kept |
| LegacyProjects.LegacyCoverImage | migrations/migrate-legacy-projects.ts:37-40 | an existing `coverImage` is never overwritten; a missing one takes a truthy `mainImage`, which is then removed |
| LegacyProjects.LegacyRemoved | migrations/migrate-legacy-projects.ts:43-60 | each legacy field is removed exactly when it was truthy, and otherwise kept |
| LegacyProjects.LegacySettled | migrations/migrate-legacy-projects.ts:18-62 | recomputing the rule on its result yields, for each field, an operation that changes nothing |
| LegacyProjects.YearSettled | migrations/migrate-legacy-projects.ts:21-30 | after the migration no year is pushed again, because both dates are gone |
| LegacyProjects.UnsetSettled | migrations/migrate-legacy-projects.ts:37-60 | after the migration no removal or rename is pushed again |
| LegacyProjects.LegacyIdempotent | migrations/migrate-legacy-projects.ts:18-62 | migrating, recomputing the list on the result and applying it again gives the same document |
| LegacyProjects.LegacyEmitsIsOngoing | migrations/migrate-legacy-projects.ts:33-34 | the list always contains `setIfMissing(status !== 'completed')` on `isOngoing` |
| LegacyProjects.PrefixOfOps | migrations/migrate-legacy-projects.ts:18-62 | the patches of the first steps are a prefix of the list |
| LegacyProjects.LegacyRenameOrder | migrations/migrate-legacy-projects.ts:37-40 | with a truthy `mainImage`, `setIfMissing(coverImage)` is immediately followed by `unset(mainImage)` |
| LegacyProjects.EmitPrefix | migrations/migrate-legacy-projects.ts:18-62 | the pushed list only grows |
| PersonToArtist.SetHelper | migrations/migrate-person-to-artist.ts:60-62 | the local `set(v)` gives a function that ignores its argument and returns `v` |
| PersonToArtist.Operations | migrations/migrate-person-to-artist.ts:25-53 | the rule returns 13 patches in fixed order: first the `_type` entry, built with the local `set`, then the twelve defaults |
| PersonToArtist.Migrate | migrations/migrate-person-to-artist.ts:23-56 | the document function returns that list |
| PersonToArtist.DefaultsShape | migrations/migrate-person-to-artist.ts:29-52 | all fields after `_type` use `setIfMissing`; they are twelve distinct fields, starting with `isCoreArtist` |
| PersonToArtist.TypeEntryIgnoresPrevious | migrations/migrate-person-to-artist.ts:26 | the `_type` entry's function returns "artist" whatever it is given |
| PersonToArtist.CoreFlag | migrations/migrate-person-to-artist.ts:13-16 | the `isCoreArtist` default is true exactly when `_id` is one of the two core identifiers |
| PersonToArtist.DefaultsKeepPresent | migrations/migrate-person-to-artist.ts:29-52 | the defaults never overwrite a field that is set and not null |
| PersonToArtist.DefaultsSettle | migrations/migrate-person-to-artist.ts:29-52 | applying the defaults a second time changes nothing |
| PersonToArtist.OperationsIntended | migrations/migrate-person-to-artist.ts:26 | the corrected list differs only in its first entry |
| PersonToArtist.IntendedRetypes | migrations/migrate-person-to-artist.ts:25-53 | the corrected list is a list of plain patch operations whose first entry sets `_type` to "artist" and which keeps every other field that is present, under `Patches.ApplyPatch`, which does not model the store's refusal to change `_type` |
| PersonToArtist.AsWrittenTypeEntry | migrations/migrate-person-to-artist.ts:26 | as written, the list holds a function value where a patch operation belongs; the corrected list does not |
| PersonToArtistV2.NameInjective | migrations/migrate-person-to-artist-v2.ts:20-58 | the object literal has distinct keys |
| PersonToArtistV2.FieldValue | migrations/migrate-person-to-artist-v2.ts:22-57 | every field except the four copied names is always written |
| PersonToArtistV2.Migrate | migrations/migrate-person-to-artist-v2.ts:60 | the rule replaces the whole document with the new artist object |
| PersonToArtistV2.PutLookup | migrations/migrate-person-to-artist-v2.ts:20-58 | writing one property of the literal changes only that field, and an undefined value writes nothing |
| PersonToArtistV2.BuildLookup | migrations/migrate-person-to-artist-v2.ts:20-58 | after the first `k` properties are written, each written field holds its value and each later one is absent |
| PersonToArtistV2.BuildUnnamed | migrations/migrate-person-to-artist-v2.ts:20-58 | a name that is not in the literal is never written |
| PersonToArtistV2.Lookup | migrations/migrate-person-to-artist-v2.ts:20-58 | each field of the new document holds what the literal gives it |
| PersonToArtistV2.NewArtistDoc | migrations/migrate-person-to-artist-v2.ts:20-58 | the replacement document; characterised by PersonToArtistV2.Lookup and Unnamed |
| PersonToArtistV2.Position | migrations/migrate-person-to-artist-v2.ts:20-58 | every property of the literal occurs exactly once in the field order, at its position |
| PersonToArtistV2.Unnamed | migrations/migrate-person-to-artist-v2.ts:20-60 | every person field that the literal does not name is dropped |
| PersonToArtistV2.NewArtistCopies | migrations/migrate-person-to-artist-v2.ts:22-28 | `_id` and the three names are copied verbatim (references stay valid); every other listed field is present |
| PersonToArtistV2.NewArtistOptional | migrations/migrate-person-to-artist-v2.ts:23-33 | a falsy `bio`/`image`/`email`/`phone` becomes null and a falsy `roles` becomes `[]`; `_type` is "artist" |
| PersonToArtistV2.AgreesWithPatchingForm | migrations/migrate-person-to-artist-v2.ts:36-57 | the replacement holds exactly the values that the patching rule's defaults would set: `isCoreArtist` from the core ids, `isActive`, the social-media object and the fixed defaults |
| PersonToArtistV2.DefaultsLow | migrations/migrate-person-to-artist-v2.ts:36-49 | defaults 0-3 (`isCoreArtist`, `isActive`, `socialMedia`, `statement`) agree with the patching rule |
| PersonToArtistV2.DefaultsMiddle | migrations/migrate-person-to-artist-v2.ts:50-53 | defaults 4-7 (`birthYear`, `birthPlace`, `currentLocation`, `education`) agree |
| PersonToArtistV2.DefaultsHigh | migrations/migrate-person-to-artist-v2.ts:54-57 | defaults 8-11 (`cv`, `personalProjects`, `interests`, `website`) agree |
| PersonToArtistV2.NewArtistIdempotent | migrations/migrate-person-to-artist-v2.ts:20-60 | running the replacement on its own output gives the same document |
| PersonToArtistV2.SameField | migrations/migrate-person-to-artist-v2.ts:22-57 | each literal field computed from the new document equals the one computed from the person |
| PersonToArtistScript.PlatformSlot | migrations/02-migrate-person-to-artist.ts:51-61 | the slot is the first keyword the platform contains, in the order instagram, vimeo, facebook, twitter or "x.com"; otherwise "other"; each slot is given exactly when its keyword is the first one found |
| PersonToArtistScript.ItemEffectOf | migrations/02-migrate-person-to-artist.ts:46-61 | an item throws exactly when it is null or its platform is neither a string nor null; it writes a slot exactly when it is an object with a non-empty string platform and a truthy url, and then writes that url to its platform's slot |
| PersonToArtistScript.EffectsOf | migrations/02-migrate-person-to-artist.ts:45 | there is one effect per item, in order |
| PersonToArtistScript.LandsInTail | migrations/02-migrate-person-to-artist.ts:45 | dropping the first item shifts the position of each slot write by one |
| PersonToArtistScript.ApplyEffectsFails | migrations/02-migrate-person-to-artist.ts:45-62 | the `forEach` throws exactly when some item throws |
| PersonToArtistScript.ApplyEffectsKeys | migrations/02-migrate-person-to-artist.ts:45-62 | a slot is present exactly when it was already present or some item writes it |
| PersonToArtistScript.ApplyEffectsLastWins | migrations/02-migrate-person-to-artist.ts:51-61 | a slot holds the url of the last item that writes it |
| PersonToArtistScript.ApplyEffectsUntouched | migrations/02-migrate-person-to-artist.ts:45-62 | a slot that no item writes keeps its value |
| PersonToArtistScript.SocialMediaCharacterised | migrations/02-migrate-person-to-artist.ts:43-64 | the converted object throws exactly when an item throws; otherwise it has exactly the slots some item lands in, each with the url of the last such item |
| PersonToArtistScript.ConvertSocialMedia | migrations/02-migrate-person-to-artist.ts:38-65 | the `forEach` loop computes the converted object, which is empty for a missing or non-array input |
| PersonToArtistScript.LowerOrUndefined | migrations/02-migrate-person-to-artist.ts:72-73 | `name?.toLowerCase()` is undefined for null/undefined, the lower-cased string for a string, and throws otherwise |
| PersonToArtistScript.LowerFullName | migrations/02-migrate-person-to-artist.ts:68 | lower-casing "first last" lower-cases each name |
| PersonToArtistScript.JoinedName | migrations/02-migrate-person-to-artist.ts:70-73 | the exact-match names "francisco" or "markus" and "schork", joined by a space, are the searched full names |
| PersonToArtistScript.FullNameMentions | migrations/02-migrate-person-to-artist.ts:70-71 | a full name equal to a searched name passes the substring test |
| PersonToArtistScript.ExactMatchMentions | migrations/02-migrate-person-to-artist.ts:70-73 | a name that passes an exact-match disjunct also passes a substring disjunct |
| PersonToArtistScript.NoExactMatch | migrations/02-migrate-person-to-artist.ts:67-75 | names that fail both substring tests fail each exact-match disjunct |
| PersonToArtistScript.IsCoreArtistIsSubstringTest | migrations/02-migrate-person-to-artist.ts:67-75 | whenever `isCoreArtist` returns, its answer is the substring test; it throws only for a non-string name; for two strings it always returns |
| PersonToArtistScript.IsCoreArtist | migrations/02-migrate-person-to-artist.ts:67-75 | `isCoreArtist`, disjunct by disjunct; characterised by IsCoreArtistIsSubstringTest |
| PersonToArtistScript.ArtistDoc | migrations/02-migrate-person-to-artist.ts:99-120 | the artist has `_type` "artist", `isActive` true, the given core flag and social media, and empty `education`, `personalProjects` and `interests`; `_id` and `_rev` are not carried; names and all other fields are copied |
| PersonToArtistScript.PlanShape | migrations/02-migrate-person-to-artist.ts:123-141 | the transaction deletes the old id and creates the artist under the id without its "drafts." prefix; a third create, under the draft id and otherwise identical, happens exactly for a draft |
| PersonToArtistScript.PersonPlan | migrations/02-migrate-person-to-artist.ts:99-141 | what the `try` block builds for one person; characterised by PlanShape and ArtistDoc |
| PersonToArtistScript.Transaction.constructor | migrations/02-migrate-person-to-artist.ts:123 | a new transaction holds no mutations |
| PersonToArtistScript.Transaction.Delete | migrations/02-migrate-person-to-artist.ts:126 | `delete` appends one delete mutation |
| PersonToArtistScript.Transaction.Create | migrations/02-migrate-person-to-artist.ts:130-140 | `create` appends one create mutation |
| PersonToArtistScript.PrepareTransaction | migrations/02-migrate-person-to-artist.ts:99-141 | the `try` body builds a fresh transaction holding exactly the planned mutations, or throws exactly when the plan throws |
| PersonToArtistScript.CountMigratedStep | migrations/02-migrate-person-to-artist.ts:97-152 | each loop step counts one more success exactly when its person is migrated |
| PersonToArtistScript.SubmittedStep | migrations/02-migrate-person-to-artist.ts:97-143 | each loop step submits its transaction when one can be built |
| PersonToArtistScript.MigratePersons | migrations/02-migrate-person-to-artist.ts:87-164 | an empty fetch returns early; otherwise every person is attempted once and `successCount + errorCount` equals the number of persons; successes are the built-and-committed persons; the run throws exactly when `errorCount > 0` |
| PersonToArtistScript.AllCommitsSucceed | migrations/02-migrate-person-to-artist.ts:97-152 | when every commit succeeds, each submitted transaction is a success, and the only failures are persons whose transaction cannot be built |
| Backup.SanitizeTimestamp | migrations/01-backup-current-data.ts:38 | each ':' and '.' becomes '-', every other character is kept, and the length is unchanged |
| Backup.SanitizeSafe | migrations/01-backup-current-data.ts:38 | the result contains no ':' or '.', and sanitising again changes nothing |
| Backup.OfTypeMembers | migrations/01-backup-current-data.ts:54-61 | a document is in the group of type `t` exactly when it was fetched and its `_type` is `t` |
| Backup.TypesInOrderSpec | migrations/01-backup-current-data.ts:54-61 | the group keys are distinct, and a type has a key exactly when some document has it |
| Backup.GroupStep | migrations/01-backup-current-data.ts:55-60 | one `reduce` step appends the document to its own type's group and adds the type as a new key if it is new |
| Backup.GroupByType | migrations/01-backup-current-data.ts:54-61 | the `reduce` yields a group for each type present, holding that type's documents in fetch order, with keys in first-seen order |
| Backup.CountGroups | migrations/01-backup-current-data.ts:65-78 | the loop pushes one count per group key, in key order, equal to the group's size |
| Backup.CountsOf | migrations/01-backup-current-data.ts:65-78 | there is one count entry per distinct type |
| Backup.SumSizesShift | migrations/01-backup-current-data.ts:54-61 | a new document adds one to the size of its own group for each time its type is listed |
| Backup.OccurrencesDistinct | migrations/01-backup-current-data.ts:54-61 | a type appears at most once among the keys |
| Backup.GroupSizesSum | migrations/01-backup-current-data.ts:54-61 | the group sizes add up to the number of documents |
| Backup.SumCountsOfSizes | migrations/01-backup-current-data.ts:65-78 | the counts add up to the sizes of the groups |
| Backup.CountsSum | migrations/01-backup-current-data.ts:88 | the counts add up to `totalDocuments` |
| Backup.Insert | migrations/01-backup-current-data.ts:89 | insertion adds exactly the one entry |
| Backup.InsertSorted | migrations/01-backup-current-data.ts:89 | inserting into a list sorted by non-increasing count keeps it sorted |
| Backup.SortByCount | migrations/01-backup-current-data.ts:89 | the sort by `b.count - a.count` yields a permutation with non-increasing counts |
| Backup.SumCountsPrepend | migrations/01-backup-current-data.ts:89 | a prepended entry adds its count to the total |
| Backup.SumCountsInsert | migrations/01-backup-current-data.ts:89 | an inserted entry adds its count to the total |
| Backup.SortKeepsSum | migrations/01-backup-current-data.ts:89 | sorting keeps the total of the counts |
| Backup.Inventory | migrations/01-backup-current-data.ts:38-91 | the report has the sanitised timestamp, the backup path and `totalDocuments` = number of documents; `documentsByType` is a permutation of the per-type counts, sorted by non-increasing count, and sums to the total |
| Backup.ReportEntries | migrations/01-backup-current-data.ts:65-89 | every report entry names a present type with its group's size, and each present type appears exactly once with that size |
| Backup.DistinctMultiplicity | migrations/01-backup-current-data.ts:67-78 | an entry whose type name occurs nowhere else in the list occurs exactly once |
| Selection.OrEmpty | schemaTypes/artist.ts:71-72 | `o \|\| ''` is the string when it is non-empty, else empty |
| Selection.Interpolate | schemaTypes/mediaType.ts:46 | a present string is inserted into the template as it is, and a missing one as "undefined" |
| Selection.IconTitle | schemaTypes/mediaType.ts:46 | the title is the icon, or the fallback when the icon is falsy, then a space and the title |
| Selection.IconTitleEnds | schemaTypes/mediaType.ts:46 | the title always ends with a space and the given title |
| ArtistSchema.SlugSource | schemaTypes/artist.ts:70-74 | the slug source has no white space at either end; it is the first name without its leading white space, a space, and the last name without its trailing white space; when one name is missing or all white space, it is the other name trimmed |
| ArtistSchema.SlugSourceCases | schemaTypes/artist.ts:70-74 | for names without surrounding white space: with both names it is "first last"; with one, that name; with none, empty |
| ArtistSchema.TruthyParts | schemaTypes/artist.ts:342-346 | `.filter(Boolean)` keeps every filled part and only filled parts, each a non-empty string, and is no longer than its input |
| ArtistSchema.TruthyPartsConcat | schemaTypes/artist.ts:342-346 | the filter keeps the parts in order: filtering a concatenation is concatenating the filtered lists |
| ArtistSchema.SubtitleCases | schemaTypes/artist.ts:342-347 | the subtitle is empty exactly without role and core flag; otherwise it is the role, the badge, or "role • badge" |
| ArtistSchema.Subtitle | schemaTypes/artist.ts:342-347 | the subtitle expression; characterised by ArtistSchema.SubtitleCases |
| ArtistSchema.Prepare | schemaTypes/artist.ts:325-355 | the `+=` steps give the trimmed "First M. Last" title, the role/badge subtitle and the media unchanged |
| ArtistSchema.TitleFull | schemaTypes/artist.ts:329-339 | for first and last names without surrounding white space: with all three names the title is "First M. Last" |
| ArtistSchema.TitleWithoutMiddle | schemaTypes/artist.ts:329-350 | without a middle name the title equals the slug source |
| ArtistSchema.TitleStartsWithFirstName | schemaTypes/artist.ts:329 | for a first name without surrounding white space: the title begins with the first name |
| ProjectLegacySchema.CreatorName | schemaTypes/projectLegacy.ts:238 | "first last" when both are truthy, else whichever is truthy, else empty |
| ProjectLegacySchema.Subtitle | schemaTypes/projectLegacy.ts:239 | empty exactly when the creator name is empty; otherwise "by name", followed by " (role)" only for a truthy role |
| ProjectLegacySchema.Prepare | schemaTypes/projectLegacy.ts:236-246 | title and media are passed through, and the subtitle is built from the creator name |
| ProjectLegacySchema.NoCreatorNoSubtitle | schemaTypes/projectLegacy.ts:238-239 | without a creator name the subtitle is empty, even when a role is selected |
| ArtworkSchema.LocationType | schemaTypes/artwork.ts:109 | `parent?.locationType` is defined exactly for a parent object that has the field, and is then that field's value |
| ArtworkSchema.LocationHiddenCases | schemaTypes/artwork.ts:109 | the location is hidden exactly for a private or artist collection, and shown for an institution or a missing type |
| ArtworkSchema.LocationHidden | schemaTypes/artwork.ts:109 | the `hidden` callback; characterised by ArtworkSchema.LocationHiddenCases |
| ArtworkSchema.Prepare | schemaTypes/artwork.ts:138-145 | the subtitle is "by " and the creator when the creator is truthy, else empty; title and media are passed through |
| CategorySchema.Prepare | schemaTypes/category.ts:31-37 | "Child of" the parent title when it is truthy, else "Top level category"; the subtitle is never empty |
| MediaTypeSchema.Prepare | schemaTypes/mediaType.ts:44-49 | the title is the icon, or the camera when it is falsy, then the title; the subtitle is the description |
| MediaTypeSchema.TitleShape | schemaTypes/mediaType.ts:46 | the title begins with the icon (or the camera) and ends with the given title |
| ProjectTypeSchema.Prepare | schemaTypes/projectType.ts:44-49 | the title is the icon, or the folder when it is falsy, then the title; the subtitle is the description |
| ProjectTypeSchema.TitleShape | schemaTypes/projectType.ts:46 | the title begins with the icon (or the folder) and ends with the given title |

## Left out

- Store and file-system I/O:
  - the client, `fetch`, GROQ queries, `fs` writes, `console` output and `process.exit` are not modelled;
  - the fetched documents are parameters;
  - each commit's outcome is an oracle sequence (`commitOk`);
  - the backup directory is a parameter, because `path.join` and `process.cwd()` are not modelled.
- `new Date().toISOString()`: the ISO timestamp is a parameter, and only its sanitising is modelled.
- The `sanity/migrate` runner:
  - how it selects documents is not modelled, beyond the registered types and the GROQ filter, which are stated as predicates;
  - how it applies patches is given by `Patches.ApplyPatches`.
  - What the store does with the function value in the `_type` entry of migrations/migrate-person-to-artist.ts:26 is not modelled, so that list is never applied.
- The store's refusal to change a document's `_type` is not modelled: `Patches.ApplyPatch` treats `_type` as an ordinary field. The source's own comments state this refusal at migrations/migrate-person-to-artist-v2.ts:6 and migrations/migrate-artist-to-person.ts:27.
- PersonToArtist.IntendedRetypes: proves that `_type` becomes "artist" only under that patch semantics. The store would still refuse the `_type` write of the corrected list. The program's actual fix is the replacement document of migrations/migrate-person-to-artist-v2.ts, modelled by `PersonToArtistV2`.
- `Text.Lower` lower-cases ASCII letters only. Unicode case mapping is left out.
- `Text.IsSpace` covers the ASCII white space, NBSP and BOM. Other Unicode white space is not recognised by `Text.Trim` or `Text.ParseInt`.
- `NaN` from `parseInt` is stored as `null`, as JSON serialisation writes it.
- Numbers are integers. Floating point, and hence `String()` of non-integers, is left out.
- Property lookups that hit `Object.prototype` keys (`MAP["constructor"]`, `acc["toString"]`) are not modelled. Tables and groups are plain maps.
- `Object.entries` lists integer-like keys first in JavaScript. `Backup.GroupByType` keeps first-seen order for all keys.
- Backup.SortByCount: the stability of `Array.prototype.sort` among equal counts is not stated. Only sortedness and permutation are proved.
- ArtistSchema.MiddleInitial takes the first code unit as one character, so a middle name starting with a surrogate pair is not modelled faithfully.
- Preview selections are strings or `undefined`. A selected value of another type is not modelled.
- A fetched person is always an object, so the TypeError that destructuring `null` would raise inside the loop is not modelled. Neither is the exception from `person.firstName` in the `catch` block that would follow it.
- `prepare` of schemaTypes/exhibition.ts (timezone-dependent date parsing) and of schemaTypes/award.ts (one unconditional template) are not part of this model. Neither are the declarative schema fields, validation rules, desk structure and configuration files.

## Findings

| source | as written | input that shows it | evidently intended | confidence | as-written member | corrected member |
|---|---|---|---|---|---|---|
| migrations/migrate-artist-to-person.ts:34-35 (and the same lines of steps 2-6) | a mapped array element is replaced by the value of `at('_ref', set(id))`, a patch object `{path, op}`, so the array loses the reference's `_type`, `_ref` and `_key` | a project whose `creators` is `[{_type: 'reference', _ref: '3f151b53-…', _key: 'k1'}]` | `{...element, _ref: id}`, as migrations/update-project-references.ts:31-34 does; migrations/fix-project-references.ts exists to repair this output, and repairs it only partly (unmapped references and every `_key` are lost) | high, not executed | ArtistToPerson.AsWrittenLosesReference | ArtistToPerson.IntendedKeepsReferences |
| migrations/migrate-person-to-artist.ts:26, 60-62 | the file defines its own `set(value)`, which returns a function `prev => value`; the `_type` entry is therefore `at('_type', <function>)`, not a patch operation | any person document | `set('artist')` from `sanity/migrate`: a well-formed list of patch operations. The store would still refuse its `_type` write, and migrations/migrate-person-to-artist-v2.ts, which replaces the whole document, is the program's actual fix | medium, not executed | PersonToArtist.AsWrittenTypeEntry | PersonToArtist.IntendedRetypes |
