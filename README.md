# Advanced Image Field — validation model

This project models the validation core of the Advanced Image field, a Craft
CMS asset field that only accepts images. The field adds two validators to
every element that uses it:

- `validateDimensions` rejects stored images that are narrower, wider,
  shorter or taller than the configured bounds.
- `validateImageTypes` rejects stored or freshly uploaded files whose
  extension is not in the configured list.

To find the fresh uploads, the field reads the submitted value. The value
carries inline `data:` URIs, each with an optional suggested name, and
multipart uploads under the field's request parameter (`_getUploadedFiles`).
The field's settings form lists the host's image extensions as options
(`imageTypeOptions`).

Modules:

- `Php` (`php.dfy`): the PHP behaviour the code relies on.
  - the truthiness of `int|null` settings
  - `empty()` and `!$x` on strings ("" and "0" are empty)
  - `mb_strtolower`, for ASCII letters
  - `pathinfo($path, PATHINFO_EXTENSION)`
- `DataUri` (`data_uri.dfy`): the inline-upload pattern
  `^data:(?<type>[a-z0-9]+/[a-z0-9]+);base64,(?<data>.+)` with the `i` flag,
  as a scan over positions.
  - It is proved sound: what a match guarantees about the subject.
  - It is proved complete: every subject of that shape matches and yields its two groups.
- `Elements` (`element.dfy`): the host element as the validators see it. This is a class whose per-attribute error lists `addError` appends to.
- `Sequences` (`sequences.dfy`): concatenating per-item results. This is the shape of each validator loop.
- `Uploads` (`uploads.dfy`): `_getUploadedFiles`, as a method with both loops and a specification function, plus lemmas.
- `AdvancedImageField` (`advanced_image_field.dfy`):
  - the settings record
  - the two validators, as methods that append to the element's errors, each proved against a specification function
  - the lemmas about those functions
  - `imageTypeOptions`

An error is a record carrying its message parameters, not the translated text:
- `DimensionError(dimension, filename, actual, bound)`
- `TypeError(extension)`

## Model

| member | source | states |
|---|---|---|
| AdvancedImageField.ValidateDimensions | src/fields/AdvancedImageField.php:110-177 | Appends exactly `DimensionErrors(settings, stored)` to the field's error list and changes nothing else. It takes only the stored assets, so uploads are never dimension-checked. With `restrictDimensions` off, the errors are unchanged. |
| AdvancedImageField.CheckDimension | src/fields/AdvancedImageField.php:117-175 | One of the four checks: it appends the check's error exactly when the bound is truthy and the size lies strictly beyond it, and appends nothing otherwise. |
| AdvancedImageField.AddErrorAfter | src/fields/AdvancedImageField.php:119-129 | One `addError` call extends the attribute's list, which already held the errors before it, by that one error. |
| AdvancedImageField.Violates | src/fields/AdvancedImageField.php:117-175 | A bound is broken only when it is truthy, and only by a size different from it: a size equal to a bound passes. |
| AdvancedImageField.Check | src/fields/AdvancedImageField.php:117-130 | A single check yields at most one error. |
| AdvancedImageField.AssetErrors | src/fields/AdvancedImageField.php:116-176 | One asset gets at most four errors. |
| AdvancedImageField.AssetErrorsIff | src/fields/AdvancedImageField.php:117-175 | For each check: its error is present iff the bound is non-null, nonzero and violated (`<` for minimums, `>` for maximums). Every error of an asset is the error of a check it violates. |
| AdvancedImageField.AssetErrorsOrdered | src/fields/AdvancedImageField.php:116-176 | Within one asset, errors appear strictly in the order min width, max width, min height, max height. |
| AdvancedImageField.Rank | src/fields/AdvancedImageField.php:116-176 | Each check's rank is its position among the four checks in source order. |
| AdvancedImageField.InvertedRange | src/fields/AdvancedImageField.php:117-145 | With an inverted width range, a width inside it gets the min-width error and then the max-width error. No check short-circuits another. |
| AdvancedImageField.AllAssetErrorsExact | src/fields/AdvancedImageField.php:116-176 | Every violation of every stored asset is reported. Every reported error is a violation of some asset. There are at most four errors per asset. |
| AdvancedImageField.AllAssetErrorsAppend | src/fields/AdvancedImageField.php:116 | The errors follow asset order: the errors of a concatenation are the first run's errors followed by the second run's. |
| AdvancedImageField.TooNarrow | src/fields/AdvancedImageField.php:117-130 | With `minWidth` 800 and no other bound, an asset 600 px wide gets exactly one min-width error carrying 600 and 800. |
| AdvancedImageField.AllAssetErrors | src/fields/AdvancedImageField.php:116-176 | The loop over the stored assets adds at most four errors per asset. |
| AdvancedImageField.DimensionErrors | src/fields/AdvancedImageField.php:112-176 | Nothing is added when `restrictDimensions` is off, and at most four errors per stored asset otherwise. |
| AdvancedImageField.ValidateImageTypes | src/fields/AdvancedImageField.php:186-221 | Appends exactly `TypeErrors(...)` for the stored assets and the submitted uploads. With `restrictImageTypes` off, the errors are unchanged. |
| AdvancedImageField.CollectFilenames | src/fields/AdvancedImageField.php:192-207 | The names checked are the stored assets' file names in order, followed by the uploaded files' names in order. |
| AdvancedImageField.AddTypeErrors | src/fields/AdvancedImageField.php:210-220 | Appends exactly the errors `ExtensionErrors` gives for the names, in name order. |
| AdvancedImageField.CheckedExtension | src/fields/AdvancedImageField.php:211 | The compared extension holds no '.', no '/' and no upper-case letter. |
| AdvancedImageField.Rejection | src/fields/AdvancedImageField.php:212-219 | One name yields at most one error. |
| AdvancedImageField.ExtensionErrors | src/fields/AdvancedImageField.php:210-220 | The checking loop adds at most one error per file name. |
| AdvancedImageField.TypeErrors | src/fields/AdvancedImageField.php:188-220 | Nothing is added when `restrictImageTypes` is off, and at most one error per stored asset or uploaded file otherwise. |
| AdvancedImageField.AssetFilenames | src/fields/AdvancedImageField.php:196-201 | One name per stored asset, each equal to that asset's file name, in order. |
| AdvancedImageField.UploadedFilenames | src/fields/AdvancedImageField.php:203-207 | One name per uploaded file, each equal to that file's `filename`, in order. |
| AdvancedImageField.ExtensionErrorsExact | src/fields/AdvancedImageField.php:210-220 | Every error carries the extension of one of the names, and that extension is not a strict member of `allowedImageTypes`. Every name whose extension is not allowed gets its error. There is at most one error per name. |
| AdvancedImageField.ExtensionErrorsNoneIff | src/fields/AdvancedImageField.php:210-220 | There are no type errors iff every name's lower-cased extension is allowed. |
| AdvancedImageField.ExtensionErrorsAppend | src/fields/AdvancedImageField.php:210 | Errors follow name order: a concatenation gets the first run's errors, then the second's. |
| AdvancedImageField.TypeErrorsLayout | src/fields/AdvancedImageField.php:192-220 | The stored assets' errors come first, then the uploads'. |
| AdvancedImageField.SingleFilename | src/fields/AdvancedImageField.php:211-219 | A name `stem.ext` gets one error carrying the lower-cased `ext` when that is not allowed, and none otherwise. |
| AdvancedImageField.UpperCaseExtension | src/fields/AdvancedImageField.php:211-219 | `photo.GIF` against `["jpg", "png"]` gives exactly one error, carrying `gif`. |
| AdvancedImageField.ImageTypeOptions | src/fields/AdvancedImageField.php:223-231 | One option per host extension, in the same order, with label == value == that extension. |
| AdvancedImageField.OptionValuesRoundTrip | src/fields/AdvancedImageField.php:223-231 | Reading the values back from the options gives the host's extension list. |
| Uploads.GetUploadedFiles | src/fields/AdvancedImageField.php:256-305 | Returns exactly `UploadedFiles(submission, host)`: the records of the `data` entries, then one record per multipart upload. |
| Uploads.InlineFiles | src/fields/AdvancedImageField.php:264-289 | The first loop collects exactly `DataFiles` of the `data` entries, including both `continue`s. |
| Uploads.DataFileAt | src/fields/AdvancedImageField.php:265-286 | An entry that does not match the pattern yields nothing. A record's decoded data is truthy (neither "" nor "0"). A record without a suggested name is named `Uploaded_file.` plus an extension. |
| Uploads.HasSuggestedName | src/fields/AdvancedImageField.php:273 | A suggested name is used exactly when the entry's index has one and it is neither "" nor "0". |
| Uploads.DataFileAtIff | src/fields/AdvancedImageField.php:265-286 | A `data` entry yields a record iff it matches the pattern, its payload decodes to something truthy, and it has a non-empty suggested name or its MIME type has an extension. The record carries the decoded data and either the suggested name or `Uploaded_file.` plus the first extension. |
| Uploads.DataFiles | src/fields/AdvancedImageField.php:264-289 | Each entry yields at most one record, and every record is a data record. |
| Uploads.DataFilesProvenance | src/fields/AdvancedImageField.php:265-286 | Every data record is the record some entry yields at its own index. |
| Uploads.DataFilesComplete | src/fields/AdvancedImageField.php:264-289 | Every record an entry yields at its own index is among the inline records: no inline upload is lost. |
| Uploads.FormFiles | src/fields/AdvancedImageField.php:294-303 | One upload record per multipart file, in order, each keeping the file's original name. |
| Uploads.UploadedFilesLayout | src/fields/AdvancedImageField.php:259-304 | The data records (at most one per entry) precede the multipart records, and the j-th multipart record has the j-th file's name. |
| Uploads.UnnamedInlineUpload | src/fields/AdvancedImageField.php:273-281 | An unnamed `data:image/png;base64,...` upload is named `Uploaded_file.` plus the host's first extension for `image/png`. It is dropped when the host has none. |
| DataUri.Parse | src/fields/AdvancedImageField.php:266 | The pattern is anchored: a subject that does not start with `data:` in some case does not match. A match has a MIME type of at least three characters and a non-empty payload, both within the subject after the two literals. |
| DataUri.ParseSound | src/fields/AdvancedImageField.php:266-268 | A match implies all of the following: the subject starts with `data:` in any case; then comes the MIME type, two alphanumeric tokens around '/'; then `;base64,` in any case; then the non-empty payload, which contains no line feed and runs to the end or to a line feed. |
| DataUri.ParseFormatted | src/fields/AdvancedImageField.php:266-269 | Every subject of that shape matches, and its groups are the MIME type and the payload. |
| Php.Truthy | src/fields/AdvancedImageField.php:117 | The falsy values of an integer-or-null bound are exactly `null` and `0`. |
| Php.EmptyString | src/fields/AdvancedImageField.php:273 | `empty()` holds of a string exactly when it is "" or "0". |
| Php.Falsy | src/fields/AdvancedImageField.php:270 | The falsy values of a string-or-false result are exactly `false`, "" and "0". |
| Php.DotSuffix | src/fields/AdvancedImageField.php:211 | The suffix after the last '.' of a path: it follows a '.', is the path's tail, holds no '.' or '/', and is absent when the path has no '.'. |
| Php.Extension | src/fields/AdvancedImageField.php:211 | The extension contains neither '.' nor '/', and a name without '.' has extension "". |
| Php.ExtensionOfJoin | src/fields/AdvancedImageField.php:211 | `pathinfo` of `stem.ext`, where `ext` has no '.' or '/', gives back `ext`. |
| Php.Lower | src/fields/AdvancedImageField.php:211 | Lower-casing keeps the length, maps each ASCII capital to its small letter, leaves every other character alone, and leaves no capital. |
| Php.LowerIdempotent | src/fields/AdvancedImageField.php:211 | Lower-casing twice is lower-casing once. |
| Elements.Appended | src/fields/AdvancedImageField.php:119-129 | Appending a batch of errors to one attribute extends its list by exactly that batch and leaves every other attribute's list alone. |
| Elements.AppendedTwice | src/fields/AdvancedImageField.php:116-176 | Appending two batches in turn is appending their concatenation. |
| Elements.Element.AddError | src/fields/AdvancedImageField.php:119-129 | `addError` appends one error to the attribute's list and touches no other attribute. |

## Left out

- Message text and `Craft::t` translation. Errors are records of the message parameters.
- `init`, `displayName`, `defaultSelectionLabel`, `inputTemplateVariables` and `getElementValidationRules`. They set template names and labels and register the two validators. `src/AdvancedImage.php` is plugin bootstrap and is not part of this model.
- The host's asset query, `requestParamName`, `UploadedFile::getInstancesByName`, `base64_decode`, `getExtensionsByMimeType` and `AssetsHelper::getFileKinds`. These are parameters:
  - the stored assets and the submission are inputs
  - the rest are the function fields of `Uploads.Host`, or the extension list given to `ImageTypeOptions`
- The `getExtensionsByMimeType` lookup at line 276 goes through a class the file does not import. The model does not guess what that class does; its result is a parameter.
- The `data` keys of the posted value are taken to be positions `0..n-1`. A suggested name is looked up under the entry's position.
- A missing `data` entry, or one that is not an array, is the empty list. The posted value itself (the query's `id`, line 262) is the `Submission`.
- The `unset` at line 291 is not modelled: it changes a local copy that is never read again.
- `Asset`: width and height are naturals.
  - A missing (`null`) width or height, and PHP's comparison of `null` with an integer, are not modelled.
  - Craft may leave `width` or `height` null. The code has no guard for that, and the model adds none.
- `Settings`: `restrictDimensions` and `restrictImageTypes` are booleans; `null` is `false`.
- `Settings`: a `null` `allowedImageTypes` is the empty list. Under PHP 7, strict `in_array` against `null` fails for every extension, as against the empty list.
- `Php.Lower`: `mb_strtolower` is modelled for ASCII letters only. Other Unicode case mappings are not modelled.
- `DataUri.Parse`: the regular expression is a hand-written scan, not a regex engine. Only the `i` flag matters. `.` stops at a line feed, and greedy `.+` takes the whole line.
- `Uploads.GetUploadedFiles`: the element is not a parameter. It reaches the host only through the field value and `requestParamName`, which are the `Submission`.
- The two validator loops are factored into helper methods with the same behaviour:
  - `CheckDimension` runs once per check
  - `CollectFilenames` and `AddTypeErrors` are the two halves of `validateImageTypes`
  - `InlineFiles` is the first loop of `_getUploadedFiles`
  
  `_getUploadedFiles` is called before the stored names are gathered. Both steps are free of side effects, so the order cannot be observed.
