# SproutCore form-field logic in Dafny

This project models two pieces of SproutCore's form widgets, without the DOM
and without the key-value-observing machinery around them.

- **`SC.Validator.String`** (`frameworks/foundation/validators/string.js`),
  module `StringValidator`. The validator checks a field value against its
  optional `minLength` and `maxLength`. A `null` bound imposes no constraint.
  `validate` is a total decision with one error path. When the value is null
  and there is no maximum, the code reads `value.length` and throws. The model
  returns `Failure(TypeError)` for that case. `validateKeyDown` decides
  whether a keystroke may be appended without passing the maximum.
- **`SC.SelectFieldView`** (`frameworks/desktop/views/select_field.js`), in
  three modules:
  - `SelectValues` is the pure value codec. `setFieldValue` encodes a
    selection as the select's string value: null becomes the sentinel `'***'`,
    `''` becomes null, and any other value becomes its guid, or its
    `toString()` when the guid is empty. `getFieldValue` decodes that string.
    It scans `objects` backwards and skips placeholders. It returns the value
    of the highest-index entry whose value's key matches: the entry's
    `valueKey` property when `valueKey` is set, else the entry itself.
  - `SelectSort` stands in for the library sort, whose comparison is not part
    of this model. It orders by the `toString()` of the `sortKey` property,
    else of the `nameKey` property, else of the entries themselves.
  - `SelectField` holds the rendered option list and the class
    `SelectFieldView`. The class keeps the view's properties as fields.
    `Render` rebuilds the options only while the `cpDidChange` flag is up, and
    it lowers the flag. The observer methods raise the flag again.
    `GetFieldValue` is the backward `while` search, proved against the
    function `Decode`.

JavaScript values are the datatype `SelectValues.Value`. A string is its own
value. Any other object carries the guid `SC.guidFor` gives it, its
`toString()`, and the properties `get` reads. `Option.None` stands for `null`
or `undefined`. A falsy value is `null`, `undefined` or `''`. A string-valued
property such as `valueKey` counts as set only when it is non-empty, as in the
source's `if (valueKey)` tests.

Where the code and its prose disagree, the model follows the code:

- `render` defaults `value` only from the entry at index 0, and only when that
  entry is not a placeholder. It does not look further for the first non-null
  entry (`select_field.js:178`).
- `render` without `valueKey` writes the value's guid (line 132). Line 206
  passes that guid string to `setFieldValue`, which applies `SC.guidFor` to it
  a second time (line 321). The option values use guid-or-`toString()` (line
  181). The two agree when the guid is non-empty and `SC.guidFor` of a string
  is the string itself, which is what this model takes it to be
  (`RenderSelectsCurrentOption`).
- When a later render (one that finds the select element in place) defaults
  `value` to the first entry, it still writes the sentinel into the select
  (line 206), because the selection it passes to `setFieldValue` was computed
  before the default. On a first render the element does not exist yet, so
  line 206 writes nothing there.

## Model

| member | source | states |
|---|---|---|
| `StringValidator.Validator.Validate` | frameworks/foundation/validators/string.js:35-46 | A null value with a maximum set is rejected. A null value with no maximum is the TypeError of reading `length`, and it is the only error. A value without a length is accepted. A string is accepted exactly when its length meets every bound that is set (`WithinMax`, `WithinMin`: an absent bound is always met). |
| `StringValidator.Validator.ValidateKeyDown` | frameworks/foundation/validators/string.js:56-65 | With no maximum every keystroke is allowed. Otherwise it is refused exactly when the current text plus the typed characters is longer than the maximum. Missing text or characters count as empty. |
| `StringValidator.Typed` | frameworks/foundation/validators/string.js:57-60 | The typed text is the current text followed by the characters, each treated as empty when missing (`OrEmpty`, lines 57 and 59). Its length is the sum of the two lengths. |
| `StringValidator.KeyDownIgnoresMin` | frameworks/foundation/validators/string.js:56-65 | Changing `minLength` never changes the key-down decision. |
| `StringValidator.KeyDownAgreesWithValidate` | frameworks/foundation/validators/string.js:35-65 | A keystroke is allowed exactly when the resulting text would pass `validate` against the maximum alone. |
| `StringValidator.ValidateMonotone` | frameworks/foundation/validators/string.js:40-44 | A value that is accepted stays accepted when either bound is loosened or dropped. |
| `SelectValues.Key` | frameworks/desktop/views/select_field.js:321 | The key of a value is its guid (`Guid`, standing for `SC.guidFor`) when the guid is non-empty, else its `toString()` (`Text`). A string's key is the string itself. |
| `SelectValues.Target` | frameworks/desktop/views/select_field.js:301-306 | A placeholder stands for nothing. Otherwise an entry stands for its `valueKey` property (`Get`, `object.get(valueKey)`) when `valueKey` is set, and for itself when it is not. |
| `SelectValues.Encode` | frameworks/desktop/views/select_field.js:317-322 | Null encodes to the sentinel `'***'`. A truthy value encodes to its key. The empty string encodes to null. |
| `SelectValues.LastMatch` | frameworks/desktop/views/select_field.js:298-311 | The result is the highest index whose entry matches the raw string (`Matches`: the entry's value is truthy and its key equals the string), with no match above it. No result means that no entry matches. |
| `SelectValues.Decode` | frameworks/desktop/views/select_field.js:282-315 | The sentinel decodes to null. Every non-null result has the raw string as its key. A found result is the value of the highest-index matching entry. With `valueKey` set, the result is non-null exactly when some entry matches. Without `valueKey` and with no match, the raw string comes back unchanged, so the result is null only for a null raw value or the sentinel. |
| `SelectValues.NullRoundTrip` | frameworks/desktop/views/select_field.js:282-322 | Encoding null and decoding it gives null. |
| `SelectValues.RoundTrip` | frameworks/desktop/views/select_field.js:298-321 | Encoding an entry's value and decoding it gives a value with the same key: that of the highest matching entry, at the same index or above. The key must not be `''` or `'***'`. |
| `SelectValues.SentinelKeyReadsAsNull` | frameworks/desktop/views/select_field.js:290-321 | Any value whose key is `'***'` encodes to the sentinel and is read back as null, for every list of entries and either `valueKey` mode. |
| `SelectSort.OrderingKey` | frameworks/desktop/views/select_field.js:101-102 | The sort key is `sortKey` when set, else `nameKey` when set, else none. |
| `SelectSort.LexLeTotal` | frameworks/desktop/views/select_field.js:109 | Any two strings compare one way or the other under the string order. |
| `SelectSort.LexLeTransitive` | frameworks/desktop/views/select_field.js:109 | The string order is transitive. |
| `SelectSort.OrderedPairs` | frameworks/desktop/views/select_field.js:102-110 | When each neighbour pair is in order, every earlier entry ranks at or below every later one. |
| `SelectSort.Insert` | frameworks/desktop/views/select_field.js:102-110 | Inserting into an ordered list keeps it ordered and adds exactly one entry. |
| `SelectSort.InsertionSort` | frameworks/desktop/views/select_field.js:102-110 | The sorted list is ordered by rank (`Rank`: the `toString()` of the sort property, or of the entry when there is no sort key) and holds the same entries. |
| `SelectSort.SortedPairs` | frameworks/desktop/views/select_field.js:102-110 | In a sorted list, every entry ranks at or below every later entry. |
| `SelectField.OptionFor` | frameworks/desktop/views/select_field.js:162-203 | A placeholder becomes a separator and any other entry becomes a choice. The choice's value attribute is the key of the entry's value, or nothing when that value is falsy. Its shown name (`Name`, line 165) is the `nameKey` property when `nameKey` is set, else the entry's `toString()`. |
| `SelectField.ObjectOptionsAt` | frameworks/desktop/views/select_field.js:162-204 | There is one option per entry, and option `i` is the option for entry `i`. |
| `SelectField.OptionListShape` | frameworks/desktop/views/select_field.js:144-204 | The list `render` builds (`OptionList` = `Header` then `ObjectOptions`): with `emptyName` set, it starts with the `'***'` option and a separator. Then comes one option per entry, a separator exactly for each placeholder. The length is the entry count plus 2 when `emptyName` is set. |
| `SelectField.RenderedSelection` | frameworks/desktop/views/select_field.js:131-133 | Null and `''` become the sentinel. Without `valueKey`, a truthy value becomes its guid, or the sentinel when that guid is empty. With `valueKey`, a truthy value is kept. |
| `SelectField.RenderSelectsCurrentOption` | frameworks/desktop/views/select_field.js:131-206 | When the current value is an entry's value, the string `render` writes into the select equals the value attribute of that entry's option. |
| `SelectField.ChosenOptionDecodes` | frameworks/desktop/views/select_field.js:144-204 | Reading back a chosen option: the empty option gives null. A choice whose value attribute is an ordinary key gives a value with that key. |
| `SelectField.SelectFieldView.constructor` | frameworks/desktop/views/select_field.js:29-76 | The class defaults: empty `objects`, no keys, no `emptyName`, sorting on, and a rebuild pending. |
| `SelectField.SelectFieldView.SetObjects` | frameworks/desktop/views/select_field.js:218-225 | A new or changed `objects` array is stored and raises `cpDidChange`. |
| `SelectField.SelectFieldView.SetNameKey` | frameworks/desktop/views/select_field.js:227-229 | Setting `nameKey` raises `cpDidChange`. |
| `SelectField.SelectFieldView.SetValueKey` | frameworks/desktop/views/select_field.js:231-233 | Setting `valueKey` raises `cpDidChange`. |
| `SelectField.SelectFieldView.SetFieldValue` | frameworks/desktop/views/select_field.js:317-325 | The select's value becomes the encoding of the new value. |
| `SelectField.SelectFieldView.GetFieldValue` | frameworks/desktop/views/select_field.js:282-315 | The backward search loop returns exactly `Decode` of the select's raw value. |
| `SelectField.SelectFieldView.SortObjects` | frameworks/desktop/views/select_field.js:99-114 | With `disableSort` the list is returned unchanged. Otherwise the result holds the same entries, ordered by the sort key. |
| `SelectField.SelectFieldView.AppendEntryOptions` | frameworks/desktop/views/select_field.js:144-204 | Builds the option list in order. When there is no `emptyName` and the selection is the sentinel (`DefaultsToFirst`, line 178), `value` defaults to the value of the first entry, if that entry is not a placeholder. |
| `SelectField.SelectFieldView.Render` | frameworks/desktop/views/select_field.js:116-214 | A first render starts from a new, empty select element; a later one keeps the element until it rebuilds it. With the flag down the value and `objects` are unchanged. With it up the flag is lowered. Without `objects`, `value` becomes null and no options are built. Otherwise `objects` is sorted in place. When there is an element to fill, the options are rebuilt and `value` may default. The selection is written only on a later render that finds the element; after a first render the select holds no value. |

## Left out

- DOM output: HTML strings pushed to the render context, `document.createElement` and `innerHTML`. The option list is a sequence of `MenuOption` values. Both render paths build the same list.
- `el.disable` at `select_field.js:191` is a typo for `disabled`. It matters only when `validateMenuItem` is overridden to refuse an item. The model keeps the default `validateMenuItem`, which accepts every item, so every choice is enabled and the typo has no effect.
- The `isEnabled` handling: the `disabled` attribute in `render`, `acceptsFirstResponder`, `mouseDown`, and the Safari focus flag.
- Focus and layer events: `fieldDidFocus`, `fieldDidBlur`, `_isFocusedObserver`, `didCreateLayer`, `willDestroyLayer`, `willBecomeKeyResponderFrom` and `didLoseKeyResponderTo`.
- Localisation (`loc()` on names and on `emptyName`), and `validateError`, which only builds a localised error.
- `SC.guidFor`, `Array.prototype.sort` and `sortProperty` are library code and not part of this model. A guid is a field of the value, and a string's guid is the string itself. The sort is an insertion sort on a string rank. Only its contract, an ordered permutation, is stated; stability is not.
- SelectSort.Rank: JavaScript's loose `<` between values of mixed types is not modelled. Entries compare by the `toString()` of the value or of its sort property. Placeholders and missing properties rank as the empty string.
- Falsy values other than `null`, `undefined` and `''`, such as `0`, `false` and `NaN`, are not modelled, and neither is loose `==` between a string and a non-string.
- SelectField.SelectFieldView.Render: the model assumes that the library sort reorders the `objects` array in place, so the view's `objects` holds the sorted order afterwards.
- The text of the input element that `validateKeyDown` reads is a parameter.
- Changes to `sortKey`, `emptyName` and `disableSort` have no observer in the source and do not raise `cpDidChange`. The model has no setter methods for them.
- StringValidator.Validator.Validate: JavaScript's `length` counts UTF-16 code units, while the model's string length counts Unicode characters. A character outside the Basic Multilingual Plane (an emoji) counts 2 in the source and 1 here, so such text can be accepted here and rejected by the source.
- StringValidator.Validator.ValidateKeyDown: the same UTF-16 difference applies to the length of the current and typed text.
- SelectSort.LexLe: JavaScript's `<` on strings compares UTF-16 code units, so characters outside the Basic Multilingual Plane can order differently than in the model, which compares Unicode characters.
- SelectField.SelectFieldView.Render: `None` stands for both `null` and `undefined`. Line 133 tests `=== null`, so an `undefined` value is not turned into the sentinel there, and the first entry does not become the default. The model treats it as null and does default it.
- SelectField.OptionFor: when an entry's value is falsy, line 186 concatenates it into the HTML, giving the attribute text `"undefined"`, `"null"` or `""`. The model records only that the choice has no usable value (`None`). Likewise a missing `nameKey` property is read as `undefined` at line 165 and concatenated into the HTML as `"undefined"` at line 186, while `Name` gives `None`.
- SelectField.SelectFieldView.Render: on a first render the select element does not exist yet, so the selection is not written. Writing it once the element exists is left to the `FieldView` superclass (its layer-creation hook), which is not part of this model; after a first render `inputValue` stays `None`.
- SelectField.RenderSelectsCurrentOption: without `valueKey`, the lemma holds only because line 321 re-applies `SC.guidFor` to the guid string from line 132, and the model takes `SC.guidFor` of a string to be the string itself. If the library returns a prefixed key for strings, the string written would not match any option.
- SelectValues.Decode: its "the key of a non-null result is the raw string" holds for the raw-string fallback of line 314 only because the model takes the key of a string to be the string itself.
- A new select element with no options is taken to report a null value (`inputValue` is `None`) until `setFieldValue` writes one.
- SelectField.SelectFieldView.SetFieldValue: the select's value (`inputValue`) is modelled as the last string written, even when no option has that value. A real select holds only one of its options' values, and assigning any other string leaves it with no selection.
- The `FieldView` superclass is not part of this model. The `getFieldValue` it provides to `sc_super()` is taken to return the select's current value, the field `inputValue`.
