/**
 * The validation of the Advanced Image field: its settings, the two
 * validators the field adds to an element's rules (image dimensions and
 * image file types), and the option list its settings form offers.
 */
module AdvancedImageField {
  import opened Php
  import opened Elements
  import opened Uploads
  import DataUri
  import opened Sequences

  /**
   * The field's settings. A bound of None is a null setting; a bound is in
   * force only when it is truthy (neither null nor 0). A null
   * `allowedImageTypes` admits no extension, like the empty list.
   */
  datatype Settings = Settings(
    handle: string,
    restrictDimensions: bool,
    minWidth: Option<int>,
    maxWidth: Option<int>,
    minHeight: Option<int>,
    maxHeight: Option<int>,
    restrictImageTypes: bool,
    allowedImageTypes: seq<string>)

  /** A stored asset of the field's value, as far as validation reads it. */
  datatype Asset = Asset(filename: string, width: nat, height: nat)

  /** The four dimension checks, declared in the order the validator makes them. */
  datatype Dimension = MinWidth | MaxWidth | MinHeight | MaxHeight

  /**
   * An error the validators add, with the parameters of its message: the
   * check, the asset's file name, its measured size and the bound; or the
   * extension that is not allowed.
   */
  datatype ValidationError =
    | DimensionError(dimension: Dimension, filename: string, actual: nat, bound: int)
    | TypeError(extension: string)

  /** One entry of the settings form's image type list; `caption` is its `label` key. */
  datatype TypeOption = TypeOption(caption: string, value: string)

  // ---------------------------------------------------------------------
  // Dimensions
  // ---------------------------------------------------------------------

  /** The order in which the validator checks an asset. */
  const CheckOrder: seq<Dimension> := [MinWidth, MaxWidth, MinHeight, MaxHeight]

  predicate IsMinimum(d: Dimension) {
    d == MinWidth || d == MinHeight
  }

  /** The setting that bounds `d`. */
  function Bound(settings: Settings, d: Dimension): Option<int> {
    match d
    case MinWidth => settings.minWidth
    case MaxWidth => settings.maxWidth
    case MinHeight => settings.minHeight
    case MaxHeight => settings.maxHeight
  }

  /** The size of `asset` that `d` bounds. */
  function Measure(asset: Asset, d: Dimension): nat {
    if d == MinWidth || d == MaxWidth then asset.width else asset.height
  }

  /** `asset` breaks the bound of `d`: the bound is in force and the size lies strictly beyond it. */
  predicate Violates(settings: Settings, asset: Asset, d: Dimension): (r: bool)
    ensures r ==> Truthy(Bound(settings, d)) && Measure(asset, d) != Bound(settings, d).value
  {
    var b := Bound(settings, d);
    Truthy(b) && (if IsMinimum(d) then Measure(asset, d) < b.value else Measure(asset, d) > b.value)
  }

  /** The error the check of `d` reports for `asset`. */
  function ErrorFor(settings: Settings, asset: Asset, d: Dimension): ValidationError {
    DimensionError(d, asset.filename, Measure(asset, d), match Bound(settings, d) case Some(b) => b case None => 0)
  }

  /** The error list of the check of `d` for `asset`: its error when the asset violates the bound, else nothing. */
  function Check(settings: Settings, asset: Asset, d: Dimension): (r: seq<ValidationError>)
    ensures |r| <= 1
  {
    if Violates(settings, asset, d) then [ErrorFor(settings, asset, d)] else []
  }

  /** The errors the four checks of one loop iteration add for `asset`, none of them short-circuiting another. */
  function AssetErrors(settings: Settings, asset: Asset): (r: seq<ValidationError>)
    ensures |r| <= 4
  {
    Check(settings, asset, MinWidth) + Check(settings, asset, MaxWidth) +
    Check(settings, asset, MinHeight) + Check(settings, asset, MaxHeight)
  }

  /** Position of `d` in the order of the checks. */
  function Rank(d: Dimension): (r: nat)
    ensures r < |CheckOrder| && CheckOrder[r] == d
  {
    match d
    case MinWidth => 0
    case MaxWidth => 1
    case MinHeight => 2
    case MaxHeight => 3
  }

  /** `AssetErrors` under fixed settings, as the per-item step of the walk over the assets. */
  function AssetStep(settings: Settings): Asset -> seq<ValidationError> {
    asset => AssetErrors(settings, asset)
  }

  /** The errors of all `assets`, asset after asset. */
  function AllAssetErrors(settings: Settings, assets: seq<Asset>): (r: seq<ValidationError>)
    ensures |r| <= 4 * |assets|
  {
    FlatMapLength(AssetStep(settings), assets, 4);
    FlatMap(AssetStep(settings), assets)
  }

  /** What `validateDimensions` adds for the stored assets `stored`. */
  function DimensionErrors(settings: Settings, stored: seq<Asset>): (r: seq<ValidationError>)
    ensures !settings.restrictDimensions ==> r == []
    ensures |r| <= 4 * |stored|
  {
    if !settings.restrictDimensions then [] else AllAssetErrors(settings, stored)
  }

  /**
   * A check reports an asset exactly when the asset violates its bound (so a
   * zero or null bound never reports), and every error of an asset is the
   * error of a check it violates.
   */
  lemma AssetErrorsIff(settings: Settings, asset: Asset)
    ensures forall d :: ErrorFor(settings, asset, d) in AssetErrors(settings, asset) <==> Violates(settings, asset, d)
    ensures forall e :: e in AssetErrors(settings, asset) ==>
      e.DimensionError? && e == ErrorFor(settings, asset, e.dimension) && Violates(settings, asset, e.dimension)
  {
  }

  /** The errors of one asset follow the order of the checks: min width, max width, min height, max height. */
  lemma AssetErrorsOrdered(settings: Settings, asset: Asset)
    ensures var r := AssetErrors(settings, asset);
      forall j, k :: 0 <= j < k < |r| ==>
        r[j].DimensionError? && r[k].DimensionError? && Rank(r[j].dimension) < Rank(r[k].dimension)
  {
  }

  /** An inverted width range reports a width inside it twice: first as too narrow, then as too wide. */
  lemma InvertedRange(settings: Settings, asset: Asset)
    requires Truthy(settings.minWidth) && Truthy(settings.maxWidth)
    requires settings.maxWidth.value < asset.width < settings.minWidth.value
    ensures AssetErrors(settings, asset)[..2] == [ErrorFor(settings, asset, MinWidth), ErrorFor(settings, asset, MaxWidth)]
  {
  }

  /**
   * Every violation of every stored asset is reported, every error reported
   * is a violation of one of them, and there are at most four per asset.
   */
  lemma AllAssetErrorsExact(settings: Settings, assets: seq<Asset>)
    ensures forall i, d :: 0 <= i < |assets| && Violates(settings, assets[i], d) ==>
      ErrorFor(settings, assets[i], d) in AllAssetErrors(settings, assets)
    ensures forall e :: e in AllAssetErrors(settings, assets) ==>
      exists i :: (0 <= i < |assets| && e.DimensionError? &&
        e == ErrorFor(settings, assets[i], e.dimension) && Violates(settings, assets[i], e.dimension))
    ensures |AllAssetErrors(settings, assets)| <= 4 * |assets|
  {
    var f := AssetStep(settings);
    forall i, d | 0 <= i < |assets| && Violates(settings, assets[i], d)
      ensures ErrorFor(settings, assets[i], d) in AllAssetErrors(settings, assets)
    {
      AssetErrorsIff(settings, assets[i]);
      FlatMapMember(f, assets, ErrorFor(settings, assets[i], d));
    }
    forall e | e in AllAssetErrors(settings, assets)
      ensures exists i :: (0 <= i < |assets| && e.DimensionError? &&
        e == ErrorFor(settings, assets[i], e.dimension) && Violates(settings, assets[i], e.dimension))
    {
      FlatMapMember(f, assets, e);
      var i :| 0 <= i < |assets| && e in f(assets[i]);
      AssetErrorsIff(settings, assets[i]);
    }
    FlatMapLength(f, assets, 4);
  }

  /** The errors of two runs of assets are those of the first run followed by those of the second. */
  lemma AllAssetErrorsAppend(settings: Settings, xs: seq<Asset>, ys: seq<Asset>)
    ensures AllAssetErrors(settings, xs + ys) == AllAssetErrors(settings, xs) + AllAssetErrors(settings, ys)
  {
    FlatMapAppend(AssetStep(settings), xs, ys);
  }

  /** A minimum width of 800 reports an asset 600 pixels wide, with both numbers in the error. */
  lemma TooNarrow(settings: Settings, filename: string)
    requires settings.restrictDimensions && settings.minWidth == Some(800)
    requires !Truthy(settings.maxWidth) && !Truthy(settings.minHeight) && !Truthy(settings.maxHeight)
    ensures DimensionErrors(settings, [Asset(filename, 600, 400)]) == [DimensionError(MinWidth, filename, 600, 800)]
  {
    var asset := Asset(filename, 600, 400);
    FlatMapStep(AssetStep(settings), [asset], 0);
    assert [asset][..1] == [asset];
  }

  /**
   * `validateDimensions`: unless the restriction is off, walks the stored
   * assets and adds the errors of the four checks for each, in that order,
   * to the field's attribute. Uploaded files play no part.
   */
  method ValidateDimensions(settings: Settings, element: Element<ValidationError>, stored: seq<Asset>)
    modifies element
    ensures element.errors == Appended(old(element.errors), settings.handle, DimensionErrors(settings, stored))
    ensures !settings.restrictDimensions ==> element.errors == old(element.errors)
  {
    if !settings.restrictDimensions {
      return;
    }
    for i := 0 to |stored|
      invariant element.errors == Appended(old(element.errors), settings.handle, AllAssetErrors(settings, stored[..i]))
    {
      FlatMapStep(AssetStep(settings), stored, i);
      ghost var before := AllAssetErrors(settings, stored[..i]);
      var asset := stored[i];
      assert before + [] == before;
      CheckDimension(settings, element, asset, MinWidth, old(element.errors), before, []);
      assert [] + Check(settings, asset, MinWidth) == Check(settings, asset, MinWidth);
      CheckDimension(settings, element, asset, MaxWidth, old(element.errors), before,
        Check(settings, asset, MinWidth));
      CheckDimension(settings, element, asset, MinHeight, old(element.errors), before,
        Check(settings, asset, MinWidth) + Check(settings, asset, MaxWidth));
      CheckDimension(settings, element, asset, MaxHeight, old(element.errors), before,
        Check(settings, asset, MinWidth) + Check(settings, asset, MaxWidth) + Check(settings, asset, MinHeight));
    }
    assert stored[..|stored|] == stored;
  }

  /**
   * One of the four checks of the loop body: when the bound of `d` is in
   * force and the asset's size lies beyond it, adds the check's error.
   */
  method CheckDimension(settings: Settings, element: Element<ValidationError>, asset: Asset, d: Dimension,
                        ghost start: map<string, seq<ValidationError>>,
                        ghost before: seq<ValidationError>, ghost sofar: seq<ValidationError>)
    modifies element
    requires element.errors == Appended(start, settings.handle, before + sofar)
    ensures element.errors == Appended(start, settings.handle, before + (sofar + Check(settings, asset, d)))
  {
    var bound := Bound(settings, d);
    var size := Measure(asset, d);
    if bound.Some? && bound.value != 0 && (if IsMinimum(d) then size < bound.value else size > bound.value) {
      var error := DimensionError(d, asset.filename, size, bound.value);
      AddErrorAfter(element, start, settings.handle, before + sofar, error);
      assert (before + sofar) + [error] == before + (sofar + [error]);
    } else {
      assert sofar + [] == sofar;
    }
  }

  /** `addError` on an element whose attribute holds `start`'s errors followed by the batch `done`. */
  method AddErrorAfter(element: Element<ValidationError>, ghost start: map<string, seq<ValidationError>>,
                       attribute: string, ghost done: seq<ValidationError>, error: ValidationError)
    modifies element
    requires element.errors == Appended(start, attribute, done)
    ensures element.errors == Appended(start, attribute, done + [error])
  {
    element.AddError(attribute, error);
    AppendedTwice(start, attribute, done, [error]);
  }

  // ---------------------------------------------------------------------
  // Image types
  // ---------------------------------------------------------------------

  /** The extension the type check compares: the lower-cased text after the last '.' of the base name. */
  function CheckedExtension(filename: string): (r: string)
    ensures '.' !in r && '/' !in r
    ensures forall i :: 0 <= i < |r| ==> !IsUpper(r[i])
  {
    Lower(Extension(filename))
  }

  /** The error for one file name: none when its extension is allowed. */
  function Rejection(allowed: seq<string>, filename: string): (r: seq<ValidationError>)
    ensures |r| <= 1
  {
    var extension := CheckedExtension(filename);
    if extension in allowed then [] else [TypeError(extension)]
  }

  /** `Rejection` against a fixed list of allowed extensions, as the per-item step of the walk over the file names. */
  function FilenameStep(allowed: seq<string>): string -> seq<ValidationError> {
    filename => Rejection(allowed, filename)
  }

  /** The errors for `filenames`: one per file name whose extension is not in `allowed`, in file name order. */
  function ExtensionErrors(allowed: seq<string>, filenames: seq<string>): (r: seq<ValidationError>)
    ensures |r| <= |filenames|
  {
    FlatMapLength(FilenameStep(allowed), filenames, 1);
    FlatMap(FilenameStep(allowed), filenames)
  }

  /** The file names of the stored assets, in order. */
  function AssetFilenames(assets: seq<Asset>): (r: seq<string>)
    ensures |r| == |assets| && forall i :: 0 <= i < |r| ==> r[i] == assets[i].filename
  {
    if assets == [] then [] else AssetFilenames(assets[..|assets| - 1]) + [assets[|assets| - 1].filename]
  }

  /** The file names of the uploaded files, in order. */
  function UploadedFilenames(files: seq<UploadedFile>): (r: seq<string>)
    ensures |r| == |files| && forall i :: 0 <= i < |r| ==> r[i] == files[i].filename
  {
    if files == [] then [] else UploadedFilenames(files[..|files| - 1]) + [files[|files| - 1].filename]
  }

  /** The file names the type check inspects: the stored assets' first, then the uploaded files'. */
  function CheckedFilenames(stored: seq<Asset>, uploaded: seq<UploadedFile>): seq<string> {
    AssetFilenames(stored) + UploadedFilenames(uploaded)
  }

  /** What `validateImageTypes` adds for the stored assets and the submitted uploads. */
  function TypeErrors(settings: Settings, stored: seq<Asset>, submission: Submission, host: Host): (r: seq<ValidationError>)
    ensures !settings.restrictImageTypes ==> r == []
    ensures |r| <= |stored| + |UploadedFiles(submission, host)|
  {
    if !settings.restrictImageTypes then []
    else ExtensionErrors(settings.allowedImageTypes, CheckedFilenames(stored, UploadedFiles(submission, host)))
  }

  /** The errors for two runs of file names are those of the first run followed by those of the second. */
  lemma ExtensionErrorsAppend(allowed: seq<string>, xs: seq<string>, ys: seq<string>)
    ensures ExtensionErrors(allowed, xs + ys) == ExtensionErrors(allowed, xs) + ExtensionErrors(allowed, ys)
  {
    FlatMapAppend(FilenameStep(allowed), xs, ys);
  }

  /**
   * Every error names the extension of one of the file names, and that
   * extension is not allowed; a file name whose extension is not allowed
   * always gets its error; and there is at most one error per file name.
   */
  lemma ExtensionErrorsExact(allowed: seq<string>, filenames: seq<string>)
    ensures forall e :: e in ExtensionErrors(allowed, filenames) ==>
      e.TypeError? && e.extension !in allowed &&
      exists i :: 0 <= i < |filenames| && e.extension == CheckedExtension(filenames[i])
    ensures forall i :: 0 <= i < |filenames| && CheckedExtension(filenames[i]) !in allowed ==>
      TypeError(CheckedExtension(filenames[i])) in ExtensionErrors(allowed, filenames)
    ensures |ExtensionErrors(allowed, filenames)| <= |filenames|
  {
    var f := FilenameStep(allowed);
    forall e | e in ExtensionErrors(allowed, filenames)
      ensures e.TypeError? && e.extension !in allowed &&
        exists i :: 0 <= i < |filenames| && e.extension == CheckedExtension(filenames[i])
    {
      FlatMapMember(f, filenames, e);
    }
    forall i | 0 <= i < |filenames| && CheckedExtension(filenames[i]) !in allowed
      ensures TypeError(CheckedExtension(filenames[i])) in ExtensionErrors(allowed, filenames)
    {
      FlatMapMember(f, filenames, TypeError(CheckedExtension(filenames[i])));
    }
    FlatMapLength(f, filenames, 1);
  }

  /** The type check passes exactly when every file name's extension is allowed. */
  lemma ExtensionErrorsNoneIff(allowed: seq<string>, filenames: seq<string>)
    ensures ExtensionErrors(allowed, filenames) == [] <==>
      forall i :: 0 <= i < |filenames| ==> CheckedExtension(filenames[i]) in allowed
  {
    ExtensionErrorsExact(allowed, filenames);
    if ExtensionErrors(allowed, filenames) != [] {
      assert ExtensionErrors(allowed, filenames)[0] in ExtensionErrors(allowed, filenames);
    }
  }

  /** The errors of the stored assets' file names come first, then those of the uploaded files'. */
  lemma TypeErrorsLayout(settings: Settings, stored: seq<Asset>, submission: Submission, host: Host)
    requires settings.restrictImageTypes
    ensures TypeErrors(settings, stored, submission, host) ==
      ExtensionErrors(settings.allowedImageTypes, AssetFilenames(stored)) +
      ExtensionErrors(settings.allowedImageTypes, UploadedFilenames(UploadedFiles(submission, host)))
  {
    ExtensionErrorsAppend(settings.allowedImageTypes, AssetFilenames(stored), UploadedFilenames(UploadedFiles(submission, host)));
  }

  /**
   * A single file name `stem.ext` is judged by the lower-cased `ext`: it gets
   * one error carrying that extension when it is not allowed, and none otherwise.
   */
  lemma SingleFilename(allowed: seq<string>, stem: string, ext: string)
    requires '.' !in ext && '/' !in ext
    ensures ExtensionErrors(allowed, [stem + "." + ext]) ==
      if Lower(ext) in allowed then [] else [TypeError(Lower(ext))]
  {
    var name := stem + "." + ext;
    ExtensionOfJoin(stem, ext);
    assert CheckedExtension(name) == Lower(ext);
    FlatMapStep(FilenameStep(allowed), [name], 0);
    assert [name][..1] == [name] && [name][..0] == [];
    assert ExtensionErrors(allowed, [name]) == [] + Rejection(allowed, name);
  }

  /** Extensions are compared after lower-casing: `photo.GIF` against jpg and png gives one error, for `gif`. */
  lemma UpperCaseExtension()
    ensures ExtensionErrors(["jpg", "png"], ["photo.GIF"]) == [TypeError("gif")]
  {
    SingleFilename(["jpg", "png"], "photo", "GIF");
    assert "photo" + "." + "GIF" == "photo.GIF";
    var g := Lower("GIF");
    assert g[0] == 'g' && g[1] == 'i' && g[2] == 'f';
    assert g == "gif";
  }

  /**
   * `validateImageTypes`: unless the restriction is off, gathers the stored
   * assets' file names, then the uploaded files' names, and adds one error
   * for each name whose extension is not allowed, in that order.
   */
  method ValidateImageTypes(settings: Settings, element: Element<ValidationError>, stored: seq<Asset>,
                            submission: Submission, host: Host)
    modifies element
    ensures element.errors == Appended(old(element.errors), settings.handle, TypeErrors(settings, stored, submission, host))
    ensures !settings.restrictImageTypes ==> element.errors == old(element.errors)
  {
    if !settings.restrictImageTypes {
      return;
    }
    var uploadedFiles := GetUploadedFiles(submission, host);
    var filenames := CollectFilenames(stored, uploadedFiles);
    AddTypeErrors(settings, element, filenames);
  }

  /** The first two loops of `validateImageTypes`: the stored assets' file names, then the uploaded files' names. */
  method CollectFilenames(stored: seq<Asset>, uploadedFiles: seq<UploadedFile>) returns (filenames: seq<string>)
    ensures filenames == CheckedFilenames(stored, uploadedFiles)
  {
    filenames := [];
    for i := 0 to |stored|
      invariant filenames == AssetFilenames(stored[..i])
    {
      assert stored[..i + 1][..i] == stored[..i];
      filenames := filenames + [stored[i].filename];
    }
    assert stored[..|stored|] == stored;
    for i := 0 to |uploadedFiles|
      invariant filenames == AssetFilenames(stored) + UploadedFilenames(uploadedFiles[..i])
    {
      assert uploadedFiles[..i + 1][..i] == uploadedFiles[..i];
      filenames := filenames + [uploadedFiles[i].filename];
    }
    assert uploadedFiles[..|uploadedFiles|] == uploadedFiles;
  }

  /** The last loop of `validateImageTypes`: one error for each file name whose extension is not allowed. */
  method AddTypeErrors(settings: Settings, element: Element<ValidationError>, filenames: seq<string>)
    modifies element
    ensures element.errors ==
      Appended(old(element.errors), settings.handle, ExtensionErrors(settings.allowedImageTypes, filenames))
  {
    for i := 0 to |filenames|
      invariant element.errors ==
        Appended(old(element.errors), settings.handle, ExtensionErrors(settings.allowedImageTypes, filenames[..i]))
    {
      FlatMapStep(FilenameStep(settings.allowedImageTypes), filenames, i);
      ghost var before := ExtensionErrors(settings.allowedImageTypes, filenames[..i]);
      var fileExtension := Lower(Extension(filenames[i]));
      if fileExtension !in settings.allowedImageTypes {
        AddErrorAfter(element, old(element.errors), settings.handle, before, TypeError(fileExtension));
      } else {
        assert before + [] == before;
      }
    }
    assert filenames[..|filenames|] == filenames;
  }

  // ---------------------------------------------------------------------
  // Settings form
  // ---------------------------------------------------------------------

  /** `imageTypeOptions`: one option per image extension the host knows, labelled and valued by it. */
  function ImageTypeOptions(extensions: seq<string>): (r: seq<TypeOption>)
    ensures |r| == |extensions|
    ensures forall i :: 0 <= i < |r| ==> r[i].caption == extensions[i] && r[i].value == extensions[i]
  {
    seq(|extensions|, i requires 0 <= i < |extensions| => TypeOption(extensions[i], extensions[i]))
  }

  /** The values the settings form submits, in option order. */
  function OptionValues(options: seq<TypeOption>): (r: seq<string>)
    ensures |r| == |options|
  {
    if options == [] then [] else [options[0].value] + OptionValues(options[1..])
  }

  /** Choosing every option yields the host's extension list back, in its order. */
  lemma {:induction false} OptionValuesRoundTrip(extensions: seq<string>)
    ensures OptionValues(ImageTypeOptions(extensions)) == extensions
    decreases |extensions|
  {
    if extensions != [] {
      assert ImageTypeOptions(extensions)[1..] == ImageTypeOptions(extensions[1..]);
      OptionValuesRoundTrip(extensions[1..]);
    }
  }
}
