# form-builder schema, path and validation engine in Dafny

This project models the engine behind the form builder: the descriptor
that the schema library emits for every field, and the JSON-like form
values checked against it. It covers:

- **Path addressing** (`Nested`). `getNestedValue` walks a dotted path.
  `setNestedValue` walks the same path in a loop, creating `[]` or `{}`
  intermediates as it goes.
- **Visibility** (`Conditions`). `data-depends-on` rules are read as
  `/body/flags` regular expressions, or as a bare pattern, and are tested
  against the value at a dotted path.
- **Defaults** (`Defaults`). `getDefaultValue` fills an object property by
  property, judging each property against the siblings already filled.
- **The descriptor validator** (`FormValidator`). `validateForm` appends to
  one shared error list. Union variants are tried speculatively and their
  errors rolled back. The root-level `safeParse` errors come last.
- **The typed validator** (`Evaluate` over `FormTypes`). `evaluate` is the
  recursive check of the six-kind `Input` schema, with `a.b` and `a[0]`
  paths and `root` at the top.
- **The union and record editors** (`UnionEditor`, `RecordEditor`). These
  are variant detection, the value emitted on a variant switch, option
  labels, and rename/remove/add on an ordered map.
- **The older validator inside the string input component** (`LegacyForm`).
  It checks `required` first and never enters array elements.

Values are `Value` trees (`Values`):
- `undefined`, `null`, booleans, integers, strings and dates (an integer
  timestamp);
- arrays;
- plain objects as ordered entry lists, because property order decides
  error order and defaults.

The foreign pieces are uninterpreted fields of a `Host` value passed in
(`Foreign`):
- compiling and testing a regular expression;
- `JSON.parse`;
- `JSON.stringify`;
- `String(...)` of a date;
- ISO date text.

Numbers are printed by `Foreign.ToText` as decimal integers.

`InitialForm` ties the halves together: a form started from the defaults
of a schema that asks no more than defaults can give has no structural
errors.

The older copies of `getNestedValue`, `setNestedValue`,
`evaluateDependsOn` and `getDefaultValue` in
`src/components/input/string/index.tsx` (lines 107-207 and 378-394) are
the same algorithms as the ones in `src/components/input/utils/`. They
are modelled once, by `Nested`, `Conditions` and `Defaults`, and
`LegacyForm` uses those models.

## Model

| member | source | states |
|---|---|---|
| Text.NatToStringCanonical | src/components/input/validators/formValidator.ts:118 | the decimal text of an element index is a canonical digit string that reads back as the index |
| Text.CanonicalRoundTrip | src/components/input/utils/nested.ts:28-29 | a canonical digit segment, converted by `Number` and printed again, gives back the same text |
| Text.CanonicalIff | src/components/input/utils/nested.ts:28-29 | a digit segment prints back unchanged exactly when it is canonical (no leading zero) |
| Text.NatToStringInjective | src/components/input/components/Union.tsx:70 | distinct numbers print differently |
| Text.Split | src/components/input/utils/nested.ts:21 | `split(".")` never returns an empty list and no part contains the separator |
| Text.JoinSplit | src/components/input/utils/nested.ts:9 | joining the parts of a split with the separator gives back the path |
| Text.SplitJoin | src/components/input/utils/nested.ts:21 | splitting a join of separator-free parts gives back the parts |
| Text.Trim | src/components/input/components/Record.tsx:26 | `trim()` gives a slice of the text with no white space at either end, and everything cut off before and after that slice is white space |
| Text.TrimStartCutsSpace | src/components/input/components/Record.tsx:26 | the characters dropped at the start are all white space |
| Text.TrimEndCutsSpace | src/components/input/components/Record.tsx:26 | the characters dropped at the end are all white space |
| Text.TrimFindsCore | src/components/input/components/Record.tsx:26 | text padded with white space around a core that starts and ends with other characters trims to exactly that core |
| Text.TrimIdempotent | src/components/input/components/Record.tsx:26 | trimming twice is trimming once |
| Text.Utf16Length | src/form/evaluate.ts:33-37 | `data.length` counts UTF-16 code units: between one and two per character |
| Text.Utf16LengthIsCount | src/form/evaluate.ts:33-37 | the UTF-16 length equals the character count exactly when no character lies outside the Basic Multilingual Plane |
| Text.AstralCharCountsTwice | src/form/evaluate.ts:33-37 | an emoji such as U+1F600 has `length` 2 |
| Nested.Segments | src/components/input/utils/nested.ts:21 | a path splits on "." into at least one segment |
| Nested.GetPathAppend | src/components/input/utils/nested.ts:9 | the walk over `a + b` is the walk over `b` from where the walk over `a` ends |
| Nested.AbsentStaysAbsent | src/components/input/utils/nested.ts:9 | optional chaining from undefined or null yields undefined for any remaining segments |
| Nested.GetStopsAtAbsent | src/components/input/utils/nested.ts:9 | once any intermediate is null or undefined, `get` yields undefined instead of failing |
| Nested.WriteIndex | src/components/input/utils/nested.ts:56-58 | `arr[n] = v` sets index `n`, keeps other elements, and fills the gap with holes read as undefined |
| Nested.ChildFor | src/components/input/utils/nested.ts:76-87 | the container entered at a segment is object-like: the existing object or array, else `[]` when the next segment is numeric and `{}` otherwise |
| Nested.Enter | src/components/input/utils/nested.ts:65-103 | one loop pass: it yields an object-like child and a frame such that writing below the child and plugging it into the frame is the write from the current container |
| Nested.WriteLast | src/components/input/utils/nested.ts:46-63 | the write at the last segment: array index or named key, on the container reached |
| Nested.SetNestedValue | src/components/input/utils/nested.ts:16-105 | the loop's result is the specified write `SetPath`; the loop keeps `current` object-like, so the guard at lines 35-44 never fires |
| Nested.SetThenGet | src/components/input/utils/nested.ts:16-105 | after a write that is not the no-op, and with canonical index segments, `get` at the same path returns the written value |
| Nested.DescendThenGet | src/components/input/utils/nested.ts:46-103 | reading back the path just written below a container gives the written value |
| Nested.LeadingZeroIndexIsNotReadBack | src/components/input/utils/nested.ts:28-29 | "a.01" writes index 1 of an array but reads the property "01", so the round trip needs canonical indices |
| Nested.NoOpOnRoot | src/components/input/utils/nested.ts:47-56 | a numeric first segment leaves a root that is not an array unchanged |
| Nested.IndexReplacesMap | src/components/input/utils/nested.ts:47-58 | a numeric last segment under a property holding an object replaces that object with a fresh array holding only the written element |
| Nested.IndexOnNonArray | src/components/input/utils/nested.ts:65-75 | an index step on a container that is not an array works as on a fresh empty array |
| Nested.OffPathUnchanged | src/components/input/utils/nested.ts:58-96 | every key or element that leaves the written path reads the same before and after the write (an array's `length` is on the path of any element write) |
| Nested.DescendOneLevel | src/components/input/utils/nested.ts:58-96 | a key that differs from the first segment keeps its value; after an element write, so does every other index, while `length` may grow |
| Nested.LengthAfterIndexWrite | src/components/input/utils/nested.ts:56-58 | after `arr[n] = v` the array's `length` is the old length, or `n + 1` when `n` was past the end |
| Nested.ArrayLengthIsRead | src/components/input/utils/nested.ts:9 | `get` at "key.length" on an array property yields the array's length |
| Nested.WriteIndexTwice | src/components/input/utils/nested.ts:56-58 | writing an index twice is writing it once with the later value |
| Conditions.LastSlash | src/components/input/utils/conditions.ts:12 | finds the last "/" of the text, or reports that there is none |
| Conditions.LiteralSplitIff | src/components/input/utils/conditions.ts:12-19 | a condition is split into body and flags exactly when it is "/" + body + "/" + flags, with word-character flags and no line terminator in the body |
| Conditions.BarePatternIsWhole | src/components/input/utils/conditions.ts:20-24 | a condition not starting with "/" is never read as a literal |
| Conditions.ToRegex | src/components/input/utils/conditions.ts:11-25 | a literal compiles from its body and flags, any other text compiles whole with no flags, and `None` stands for the thrown error |
| Conditions.UncompilableRuleFails | src/components/input/utils/conditions.ts:35-42 | a condition that does not compile makes its rule false instead of throwing |
| Conditions.AbsentFieldTestedAsEmpty | src/components/input/utils/conditions.ts:39 | an undefined or null field is tested as the empty text |
| Conditions.ArrayLengthRule | src/components/input/utils/conditions.ts:35-40 | a rule on "key.length" over an array property tests the decimal text of the array's length |
| Conditions.RuleReadsOnlyItsField | src/components/input/utils/conditions.ts:27-36 | a rule depends on the values only through the root-relative lookup of its own field |
| Conditions.Active | src/components/input/utils/conditions.ts:5-43 | the rule list is true exactly when every rule holds; the empty list is true |
| Conditions.ActiveAppend | src/components/input/utils/conditions.ts:35-42 | the rules of a concatenated list hold exactly when the rules of both parts hold |
| Foreign.CoercedText | src/components/input/utils/conditions.ts:39 | `String(v ?? "")` is "" for undefined and null and the text itself for a string |
| Values.PutAppend | src/components/input/utils/defaults.ts:16 | assigning a key that is not yet present appends it as the last entry |
| Values.PutKeysPresent | src/components/input/utils/defaults.ts:16 | assigning a key that is present keeps the key order unchanged |
| Values.PutLookup | src/components/input/utils/defaults.ts:16 | after `obj[key] = v`, `obj[key]` reads `v` and every other key reads as before |
| Defaults.UndefinedExactlyWhenHidden | src/components/input/utils/defaults.ts:7-24 | the default is undefined exactly when the node's own rules fail against the values passed in |
| Defaults.PropsDefaultKeys | src/components/input/utils/defaults.ts:13-18 | with unique names, the object filled so far has the first `n` declared names as keys, in order |
| Defaults.PutNewName | src/components/input/utils/defaults.ts:16 | assigning the next declared name appends exactly one entry |
| Defaults.GetDefaultValue | src/components/input/utils/defaults.ts:7-24 | the `forEach` loop and the recursion compute the specified default |
| Defaults.FillObject | src/components/input/utils/defaults.ts:14-17 | the `forEach` loop leaves exactly the specified object default: every property assigned in order, each judged against the map filled so far |
| Defaults.ArrayStartsEmpty | src/components/input/utils/defaults.ts:19-20 | a visible array starts as `[]` whatever its item schema |
| Defaults.LeafDefault | src/components/input/utils/defaults.ts:22 | a visible leaf starts at `defaultValue` when defined, else null |
| Defaults.ObjectDefaultKeys | src/components/input/utils/defaults.ts:13-18 | a visible object's default has exactly the declared names as keys, hidden ones included |
| Defaults.PropsDefaultStep | src/components/input/utils/defaults.ts:14-17 | each property appends one entry, judged against the entries before it |
| Defaults.PropsDefaultPrefix | src/components/input/utils/defaults.ts:14-17 | later properties never change earlier entries |
| Defaults.PropertyDefault | src/components/input/utils/defaults.ts:14-17 | property `i` holds its default judged against the map of the earlier siblings only |
| Defaults.ReadPropertyDefault | src/components/input/utils/defaults.ts:14-17 | reading a declared key back from the object's default gives that property's default, judged against its earlier siblings |
| Defaults.DefaultKeysUnique | src/components/input/utils/defaults.ts:14-17 | the object's default holds each declared name exactly once |
| Defaults.HiddenPropertyIsUndefined | src/components/input/utils/defaults.ts:8-16 | a hidden property keeps its key with the value undefined |
| Defaults.ContextOnlyGatesTheNode | src/components/input/utils/defaults.ts:15-16 | the values passed in decide only the node's own visibility; nested properties never see them |
| FormValidator.FullPath | src/components/input/validators/formValidator.ts:49 | a field's path extends its parent's path |
| FormValidator.CountErrors | src/components/input/validators/formValidator.ts:68-114 | an object gets "too few properties" exactly when its key count is below `minLength` and "too many" exactly when above `maxLength`; an array gets the item errors the same way; nothing is reported within both bounds, and everything at the field's path |
| FormValidator.MapBoundsReported | src/components/input/validators/formValidator.ts:68-92 | for a visible object given a map, the field's errors begin with exactly the key-count errors, each present exactly when its bound is broken |
| FormValidator.ArrayBoundsReported | src/components/input/validators/formValidator.ts:98-114 | for a visible array given an array, the field's errors begin with exactly the length errors, each present exactly when its bound is broken |
| FormValidator.PropsPathsBelow | src/components/input/validators/formValidator.ts:88-92 | below a non-empty path, property errors are filed strictly below it |
| FormValidator.ItemsPathsBelow | src/components/input/validators/formValidator.ts:117-119 | element errors are filed strictly below the array's path |
| FormValidator.ValidateField | src/components/input/validators/formValidator.ts:41-193 | appends exactly the field's specified errors to the shared list |
| FormValidator.ValidateMap | src/components/input/validators/formValidator.ts:68-92 | appends the key-count errors and then every declared property's errors, in declaration order |
| FormValidator.ValidateArray | src/components/input/validators/formValidator.ts:98-119 | appends the length errors and then, when there is an item descriptor, every element's errors in index order |
| FormValidator.ValidateProps | src/components/input/validators/formValidator.ts:85-92 | the `forEach` over the declared properties appends their errors in declaration order |
| FormValidator.ValidateItems | src/components/input/validators/formValidator.ts:115-120 | the `forEach` over the elements appends each element's errors against `items[0]` under its index, in order |
| FormValidator.ValidateUnion | src/components/input/validators/formValidator.ts:124-160 | the splice-and-retry loop leaves exactly the specified union errors: none when an object variant adds nothing, else one required error when required |
| FormValidator.TryVariants | src/components/input/validators/formValidator.ts:127-149 | the loop over `anyOf` leaves the shared list as it found it and reports whether some object variant accepts the value |
| FormValidator.PropsErrorsStep | src/components/input/validators/formValidator.ts:88-92 | one more property appends that property's errors |
| FormValidator.ItemsErrorsStep | src/components/input/validators/formValidator.ts:117-119 | one more element appends that element's errors |
| FormValidator.ValidateForm | src/components/input/validators/formValidator.ts:196-211 | the messages are the structural errors in declared order followed by the parse errors, and `isValid` holds exactly when both are empty |
| FormValidator.FieldPathsExtend | src/components/input/validators/formValidator.ts:49 | every error of a field is filed at its path or below it |
| FormValidator.PropsPathsExtend | src/components/input/validators/formValidator.ts:88-92 | every error of the properties is filed below the object's path |
| FormValidator.ItemsPathsExtend | src/components/input/validators/formValidator.ts:117-119 | every error of the elements is filed below the array's path |
| FormValidator.HiddenFieldIsSilent | src/components/input/validators/formValidator.ts:51-58 | a hidden field reports nothing, even when required |
| FormValidator.ObjectWithoutMap | src/components/input/validators/formValidator.ts:61-96 | an object given a non-map reports one required error when required, else nothing, and never visits its properties |
| FormValidator.ArrayWithoutArray | src/components/input/validators/formValidator.ts:97-123 | an array given a non-array reports one required error when required, else nothing |
| FormValidator.UnionAtMostOne | src/components/input/validators/formValidator.ts:124-160 | a union reports at most one error, only when required, and none exactly when an object variant accepts |
| FormValidator.OnlyObjectsAccept | src/components/input/validators/formValidator.ts:133-139 | a variant that is not an object never accepts the value |
| FormValidator.LeafRequired | src/components/input/validators/formValidator.ts:180-191 | a required boolean fails only on undefined or null; other leaf kinds, records included, also fail on "" |
| FormValidator.AnyRequired | src/components/input/validators/formValidator.ts:161-166 | `any` and `unknown` fail only when required and strictly undefined |
| FormValidator.JsonChecked | src/components/input/validators/formValidator.ts:167-179 | an empty json value fails only when required; other text fails exactly when it does not parse |
| InitialForm.DefaultIsClean | src/components/input/utils/defaults.ts:7-24 | a lenient descriptor's default passes the structural validator |
| InitialForm.PropsClean | src/components/input/utils/defaults.ts:14-17 | the properties of a lenient object's default pass the structural validator |
| InitialForm.InitialFormIsClean | src/components/input/validators/formValidator.ts:196-211 | a form started from a lenient root's defaults has no structural errors, so it is valid exactly when the parse reports nothing |
| FormTypes.RequiredKeys | src/form/types.ts:56-58 | a name is a required key exactly when some property of that name is marked required |
| FormTypes.OptionalKeys | src/form/types.ts:60-62 | a name is an optional key exactly when some property of that name is not marked required |
| FormTypes.KeysPartition | src/form/types.ts:77-85 | with unique names, each property is in exactly one of the two key sets, according to its flag |
| Evaluate.Evaluate | src/form/evaluate.ts:129-131 | success exactly when no error was found, carrying the data unchanged; failure carries the errors |
| Evaluate.StringErrors | src/form/evaluate.ts:30-41 | every string constraint error is reported at this node |
| Evaluate.NumberErrors | src/form/evaluate.ts:50-58 | every number constraint error is reported at this node |
| Evaluate.DateErrors | src/form/evaluate.ts:74-79 | every date bound error is reported at this node |
| Evaluate.LengthErrors | src/form/evaluate.ts:88-93 | every array length error is reported at this node |
| Evaluate.AbsentData | src/form/evaluate.ts:16-23 | undefined or null gives exactly "Value is required" when required, else success with no other check |
| Evaluate.WrongKind | src/form/evaluate.ts:25-126 | data of the wrong kind gives exactly one "Expected …" error and no constraint check |
| Evaluate.TopLevelIsRoot | src/form/evaluate.ts:11-13 | at the top level a leaf's errors all carry the path "root"; for any schema every error is at "root", under "[i]" for an element or under a declared property's name |
| Evaluate.ErrorsAtNodeOrChild | src/form/evaluate.ts:11-13 | every error is at this node, below `path[i]` for some element, or below `path.key` for some declared property |
| Evaluate.StringConstraints | src/form/evaluate.ts:30-41 | a string passes exactly when it is among the options, within both lengths counted in UTF-16 code units, and matches the pattern; at most four errors |
| Evaluate.AstralTextTooLong | src/form/evaluate.ts:36-37 | one emoji breaks `maxLength: 1`, because it is two code units long |
| Evaluate.NumberConstraints | src/form/evaluate.ts:50-58 | a number passes exactly when it is among the options and within both bounds |
| Evaluate.DateConstraints | src/form/evaluate.ts:74-79 | a date passes exactly when it is within both bounds |
| Evaluate.ItemsClean | src/form/evaluate.ts:94-103 | the elements pass exactly when each passes under its own `path[i]` |
| Evaluate.ArrayClean | src/form/evaluate.ts:88-103 | an array passes exactly when it is within both length bounds and every element passes |
| Evaluate.PropsClean | src/form/evaluate.ts:115-123 | the declared properties pass exactly when each passes under `path.key` |
| Evaluate.ExtraKeysIgnored | src/form/evaluate.ts:115-123 | objects that agree on the declared keys get the same errors |
| Evaluate.ErrorsUnderPath | src/form/evaluate.ts:11-13 | every error is reported at this node or strictly below its path |
| Evaluate.ItemsUnderPath | src/form/evaluate.ts:94-99 | element errors are reported strictly below the array's path |
| Evaluate.PropsUnderPath | src/form/evaluate.ts:115-119 | property errors are reported at this node or strictly below its path |
| Evaluate.PassingDataIsAdmitted | src/form/evaluate.ts:4-132 | whatever passes has the admitted shape: the right kind everywhere, and absent only where not required |
| Evaluate.PassingPropsAdmitted | src/form/evaluate.ts:115-123 | properties that pass have the admitted shape |
| Evaluate.InferredValuesPass | src/form/types.ts:67-86 | without constraints, every value of the inferred type passes `evaluate` |
| Evaluate.InferredPropsPass | src/form/types.ts:81-85 | without constraints, an object of the inferred type passes on its declared properties |
| Evaluate.NullItemPassesButIsNotInferred | src/form/evaluate.ts:16-23 | the converse fails: an optional item schema lets a null element pass although the inferred array type has no room for null |
| LegacyForm.LegacyValidateField | src/components/input/string/index.tsx:421-460 | appends exactly the older validator's errors for the field |
| LegacyForm.LegacyValidateProps | src/components/input/string/index.tsx:455-457 | the `forEach` over the declared properties appends their errors in order |
| LegacyForm.LegacyPropsStep | src/components/input/string/index.tsx:455-457 | one more property appends that property's errors |
| LegacyForm.LegacyValidateForm | src/components/input/string/index.tsx:417-468 | the messages are the root properties' errors in declaration order |
| LegacyForm.LegacyHiddenIsSilent | src/components/input/string/index.tsx:424-427 | a hidden field reports nothing |
| LegacyForm.LegacyRequiredFirst | src/components/input/string/index.tsx:430-433 | a required field that is undefined, null or "" gets exactly one required error and nothing else, whatever its kind |
| LegacyForm.LegacyArraysNotEntered | src/components/input/string/index.tsx:436-444 | an array reports at most its two length errors, at its own path, and no element is checked |
| LegacyForm.LegacyObjectWithoutMap | src/components/input/string/index.tsx:445-446 | an object whose value is not a map, and which passed the required check, reports nothing |
| LegacyForm.LeafKindsAgree | src/components/input/string/index.tsx:429-433 | on strings, numbers, dates and records the older and newer validators report the same errors |
| LegacyForm.BooleanDiffersOnEmptyText | src/components/input/string/index.tsx:430 | on a required boolean holding "" the older validator reports a required error and the newer one does not |
| UnionEditor.FirstMatch | src/components/input/components/Union.tsx:30-39 | returns the first variant from a position on whose names are all among the value's keys, or none |
| UnionEditor.InitialVariant | src/components/input/components/Union.tsx:26-42 | a non-object value selects 0; an object selects the first matching variant, and 0 when none matches, so the index is valid whenever `anyOf` is non-empty |
| UnionEditor.EmptyVariantCapturesObjects | src/components/input/components/Union.tsx:37 | an object variant without properties matches every object, so no later variant is ever detected |
| UnionEditor.FreshEntries | src/components/input/components/Union.tsx:52-54 | with unique names, the fresh map has exactly the first `n` declared names as keys |
| UnionEditor.HandleVariantChange | src/components/input/components/Union.tsx:46-59 | selects the index and emits the fresh value of the chosen variant |
| UnionEditor.FreshLookup | src/components/input/components/Union.tsx:53 | each declared key of the fresh map holds `defaultValue ?? null` |
| UnionEditor.FreshValueShape | src/components/input/components/Union.tsx:50-57 | an object variant emits a map with exactly its declared names; any other variant emits null |
| UnionEditor.SwitchIsDetected | src/components/input/components/Union.tsx:26-59 | after a switch to an object variant, drawing the field again selects that variant unless an earlier variant's names are all among its names |
| UnionEditor.FlatVariantMatchesDefault | src/components/input/components/Union.tsx:50-55 | for a variant of flat leaves without rules, the emitted value is what `getDefaultValue` gives the variant |
| UnionEditor.FlatPropsMatchDefault | src/components/input/components/Union.tsx:52-54 | for flat leaves, the fresh map and the default map agree property by property |
| UnionEditor.VariantLabel | src/components/input/components/Union.tsx:61-72 | every label starts with "Option " followed by the index plus one |
| UnionEditor.DigitRunOf | src/components/input/components/Union.tsx:70 | the option number is read back from the label: it is the run of digits after "Option " |
| UnionEditor.LabelsIdentifyTheOption | src/components/input/components/Union.tsx:61-72 | two options with equal labels have the same index, whatever the variants hold |
| UnionEditor.LabelDigits | src/components/input/components/Union.tsx:61-72 | after "Option " a label begins with exactly the digits of the option's number, whatever follows |
| RecordEditor.RecordValue | src/components/input/components/Record.tsx:22-23 | a plain object is read as its entries; anything else, arrays and dates included, as the empty record |
| RecordEditor.RenameRefused | src/components/input/components/Record.tsx:26-27 | a rename is refused exactly when the trimmed name is empty, equals the old key or is already present |
| RecordEditor.RenameMovesValue | src/components/input/components/Record.tsx:28-31 | an accepted rename moves the old value to the new key and removes the old key; other entries keep their values, and the count and key uniqueness are kept |
| RecordEditor.RemoveDeletesOne | src/components/input/components/Record.tsx:34-38 | removal deletes exactly that key, one entry fewer when present, and keeps every other entry |
| RecordEditor.AddAppendsOne | src/components/input/components/Record.tsx:40-46 | an add is refused exactly when the trimmed key is empty or present; otherwise it appends one entry holding `getDefaultValue(valueSchema)` and keeps keys unique |

## Left out

- Rendering, React state and effects are not modelled. This covers the JSX of the union, record and string components, `FieldRenderer`'s reset when a field becomes visible, and `useState` in the union input (`HandleVariantChange` returns the new selection instead of setting it).
- `schema.toJSON()` and `schema.safeParse` belong to the external schema library. The descriptor is an input, and the parse errors are an opaque list passed to `FormValidator.ValidateForm`.
- Regular expression compilation and matching, `JSON.parse`, `JSON.stringify`, `String(date)` and `Date.toISOString` are uninterpreted `Host` fields.
- Numbers are integers printed in plain decimal by `Foreign.ToText`. JavaScript prints integers of 10^21 and above in exponent form ("1e+21"); that form is not modelled. The state of a global regular expression's `lastIndex` between tests is not modelled.
- `FormValidator.MapBoundsReported`: asks for a non-empty field path. At the empty path a property whose name is "" files its own errors at that same path, so a key-count message could also come from that property.
- `Evaluate.StringConstraints`: the text of a pattern in a message is "/" + source + "/" + flags. `RegExp.prototype.toString` escaping is not modelled.
- Numbers are integers. Dates are integer timestamps. The NaN checks in `evaluate` and invalid dates are not modelled.
- JavaScript orders integer-like keys of an object before the others. The model keeps insertion order for every key.
- Keys inherited from `Object.prototype` are not modelled. This affects `k in recordValue`, `obj[part]` and rule lookups.
- Reading a path through a string is not modelled. Examples are `"abc"?.["0"]` or `"abc".length`: the model reads undefined there. An array's `length` is read; other array properties (`map`, `push`, ...) read undefined.
- `Nested.SetNestedValue`: named segments written into an existing array or date are excluded by its precondition (`Supported`). JavaScript would set a property on the array.
- Array indices above 2^32 - 2 are not treated as named properties.
- Array holes are stored as undefined. `forEach` skips holes, while the validators here visit them as undefined elements.
- `Nested.SetNestedValue` works on values: it returns the updated tree instead of mutating the caller's object in place, so aliasing between the caller's references is not modelled. The guard at `nested.ts` lines 35-44 is not written as code, because the loop invariant shows it never fires.
- The third argument that `validateForm` passes to `evaluateDependsOn` is dropped, as in the source. Rules are always resolved from the root of the form values.
- The `options` list of string and number inputs is read by `evaluate` but not declared in `types.ts`. The model follows `evaluate` and gives `StringInput` and `NumberInput` an optional options list.
- An object descriptor without `properties` is not modelled: every descriptor carries a property list, possibly empty. On such input `getDefaultValue` would throw and `getInitialVariant` would skip the variant.
- `getDefaultValue(valueSchema)` in the record editor (`addKey`) is called with the empty map as the values, which is `Defaults.InitialValue`. The union editor does not call `getDefaultValue`: it fills each key with `defaultValue ?? null` (`UnionEditor.OrNull`), and `UnionEditor.FlatVariantMatchesDefault` shows where the two agree.
- The older copies of the path, visibility and default helpers are not written out again. They are the same algorithms as the `utils/` ones, and the older validator uses those models.
