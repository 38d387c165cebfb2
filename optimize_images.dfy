/** The image-optimisation script (`scripts/optimize-images.js`): which files of the input
    directory are processed, which target sizes each one is resized to, and which output files
    are written in which order. The `sharp` pipeline is abstract: reading an image's metadata
    gives its dimensions or fails, and writing an output file succeeds or fails, as oracles
    decide. */
module OptimizeImages {
  import opened Wrappers
  import opened Strings

  // ---------------------------------------------------------------------------------------
  // The file filter

  /** The test `/\.(jpg|jpeg|png|webp)$/i`: the name ends in one of the four extensions, in any
      mix of ASCII case. */
  predicate IsImageFile(file: string): (b: bool)
    ensures b ==> |file| >= 4
  {
    var lower := ToLower(file);
    EndsWith(lower, ".jpg") || EndsWith(lower, ".jpeg") || EndsWith(lower, ".png") || EndsWith(lower, ".webp")
  }

  /** A character and its upper-case form lower-case alike. */
  lemma LowerOfUpper(s: string)
    ensures ToLower(ToUpper(s)) == ToLower(s)
  {
    assert forall i :: 0 <= i < |s| ==> LowerChar(UpperChar(s[i])) == LowerChar(s[i]);
  }

  /** Lower-casing twice is lower-casing once. */
  lemma LowerOfLower(s: string)
    ensures ToLower(ToLower(s)) == ToLower(s)
  {
    assert forall i :: 0 <= i < |s| ==> LowerChar(LowerChar(s[i])) == LowerChar(s[i]);
  }

  /** The test ignores case: a name passes iff its upper-case or its lower-case form does. */
  lemma ImageFileIgnoresCase(file: string)
    ensures IsImageFile(ToUpper(file)) <==> IsImageFile(file)
    ensures IsImageFile(ToLower(file)) <==> IsImageFile(file)
  {
    LowerOfUpper(file);
    LowerOfLower(file);
  }

  /** `files.filter(...)`: the image files of a directory listing, in listing order. */
  function ImageFiles(files: seq<string>): (r: seq<string>)
    ensures forall f :: f in r <==> f in files && IsImageFile(f)
    ensures |r| <= |files|
  {
    if files == [] then []
    else (if IsImageFile(files[0]) then [files[0]] else []) + ImageFiles(files[1..])
  }

  // ---------------------------------------------------------------------------------------
  // File names

  /** `path.extname` of a file name (no `/`): from the last dot to the end, except that a name
      whose only dot is its first character, or the name `..`, has no extension. */
  function Extname(name: string): (ext: string)
    requires '/' !in name
    ensures EndsWith(name, ext) && (ext != "" ==> |ext| < |name|)
    ensures ext != "" ==> ext[0] == '.' && '.' !in ext[1..]
  {
    match LastIndexOf(name, '.')
    case None => ""
    case Some(k) => if k == 0 || name == ".." then "" else name[k..]
  }

  /** `path.basename(name, path.extname(name))`: the name without its final extension. */
  function Basename(name: string): (base: string)
    requires '/' !in name
    ensures base + Extname(name) == name
  {
    name[..|name| - |Extname(name)|]
  }

  /** Only the final extension is stripped: earlier dots stay in the base name. */
  lemma BasenameStripsFinalExtension(stem: string, ext: string)
    requires '/' !in stem && '/' !in ext && '.' !in ext
    requires stem != "" && stem != "."
    ensures Extname(stem + "." + ext) == "." + ext
    ensures Basename(stem + "." + ext) == stem
  {
    var name := stem + ['.'] + ext;
    assert stem + "." + ext == name;
    LastIndexOfPrefixed(stem, '.', ext);
    NotDotDot(stem, ext);
    assert name[|stem|..] == "." + ext;
  }

  /** A stem other than "" and "." followed by an extension is never the name "..". */
  lemma NotDotDot(stem: string, ext: string)
    requires stem != "" && stem != "."
    ensures stem + ['.'] + ext != ".."
  {
    var name := stem + ['.'] + ext;
    assert name[0] == stem[0];
    if |stem| == 1 {
      assert stem == [stem[0]];
    }
  }

  /** A name whose only dot is its first character keeps that dot as part of its base name. */
  lemma DotFileHasNoExtension(ext: string)
    requires '/' !in ext && '.' !in ext
    ensures Extname("." + ext) == "" && Basename("." + ext) == "." + ext
  {
    LastIndexOfPrefixed("", '.', ext);
    assert "" + ['.'] + ext == "." + ext;
  }

  // ---------------------------------------------------------------------------------------
  // The output plan

  /** One entry of `config.sizes`. */
  datatype Size = Size(name: string, width: nat, height: nat)

  /** `config.sizes`, in its key order. */
  const Sizes: seq<Size> := [
    Size("thumbnail", 150, 150), Size("small", 300, 200), Size("medium", 600, 400),
    Size("large", 1200, 800), Size("hero", 1920, 1080)]

  /** `config.formats`, in order. */
  const Formats: seq<string> := ["webp", "jpg"]

  /** What `image.metadata()` reports; a dimension it leaves out is `undefined`. */
  datatype Metadata = Metadata(width: Option<nat>, height: Option<nat>)

  /** A size is skipped iff the original is narrower AND lower than it (a comparison with an
      undefined dimension is false). */
  predicate Skipped(m: Metadata, s: Size): (b: bool)
    ensures b ==> m.width.Some? && m.height.Some?
    ensures m.width.Some? && m.width.value >= s.width ==> !b
    ensures m.height.Some? && m.height.value >= s.height ==> !b
  {
    m.width.Some? && m.height.Some? && m.width.value < s.width && m.height.value < s.height
  }

  /** The encoder settings of a format: WebP at quality 85, progressive JPEG at quality 80. */
  datatype Encoding = WebP(quality: nat) | Jpeg(quality: nat, progressive: bool) | Unchanged

  function EncodingFor(format: string): (e: Encoding)
    ensures format == "webp" ==> e == WebP(85)
    ensures format == "jpg" ==> e == Jpeg(80, true)
  {
    if format == "webp" then WebP(85) else if format == "jpg" then Jpeg(80, true) else Unchanged
  }

  /** One file the script writes: where, at which size (resized with `cover` fit, centred;
      `None` for the full-size copy) and with which encoder. */
  datatype Output = Output(path: string, resize: Option<Size>, encoding: Encoding)

  /** `${basename}-${tag}.${format}`. */
  function OutputFilename(base: string, tag: string, format: string): string {
    base + "-" + tag + "." + format
  }

  /** A resized output, at `outputDir/<size>/<basename>-<size>.<format>`. */
  function SizedOutput(outDir: string, base: string, s: Size, format: string): Output {
    Output(outDir + "/" + s.name + "/" + OutputFilename(base, s.name, format), Some(s), EncodingFor(format))
  }

  /** A full-size output, at `outputDir/<basename>-full.<format>`. */
  function FullOutput(outDir: string, base: string, format: string): Output {
    Output(outDir + "/" + OutputFilename(base, "full", format), None, EncodingFor(format))
  }

  /** The outputs of one kept size, one per format in format order. */
  function FormatOutputs(outDir: string, base: string, s: Size): (r: seq<Output>)
    ensures |r| == |Formats|
  {
    seq(|Formats|, j requires 0 <= j < |Formats| => SizedOutput(outDir, base, s, Formats[j]))
  }

  /** The full-size outputs, one per format in format order. */
  function FullOutputs(outDir: string, base: string): (r: seq<Output>)
    ensures |r| == |Formats|
  {
    seq(|Formats|, j requires 0 <= j < |Formats| => FullOutput(outDir, base, Formats[j]))
  }

  /** The resized outputs of the sizes not skipped, in size order. */
  function SizedOutputs(outDir: string, base: string, m: Metadata, sizes: seq<Size>): (r: seq<Output>)
    ensures |r| <= |Formats| * |sizes|
  {
    if sizes == [] then []
    else
      (if Skipped(m, sizes[0]) then [] else FormatOutputs(outDir, base, sizes[0]))
      + SizedOutputs(outDir, base, m, sizes[1..])
  }

  /** Everything `processImage` writes for a file when no write fails. */
  function Plan(outDir: string, file: string, m: Metadata): (p: seq<Output>)
    requires '/' !in file
    ensures |Formats| <= |p| <= |Formats| * (|Sizes| + 1)
  {
    SizedOutputs(outDir, Basename(file), m, Sizes) + FullOutputs(outDir, Basename(file))
  }

  /** Each kept size is written in WebP first, then JPEG. */
  lemma FormatOrder(outDir: string, base: string, s: Size)
    ensures FormatOutputs(outDir, base, s) == [SizedOutput(outDir, base, s, "webp"), SizedOutput(outDir, base, s, "jpg")]
    ensures SizedOutput(outDir, base, s, "webp").encoding == WebP(85)
    ensures SizedOutput(outDir, base, s, "jpg").encoding == Jpeg(80, true)
  {
  }

  /** Every resized output is at one of the given sizes, and not at a skipped one. */
  lemma {:induction false} OnlyKeptSizes(outDir: string, base: string, m: Metadata, sizes: seq<Size>)
    ensures forall o :: o in SizedOutputs(outDir, base, m, sizes) ==>
      o.resize.Some? && o.resize.value in sizes && !Skipped(m, o.resize.value)
    decreases |sizes|
  {
    if sizes != [] {
      OnlyKeptSizes(outDir, base, m, sizes[1..]);
    }
  }

  /** A size gets its outputs iff it is not skipped. */
  lemma {:induction false} KeptSizeIsWritten(outDir: string, base: string, m: Metadata, sizes: seq<Size>, s: Size, format: string)
    requires s in sizes && format in Formats
    ensures SizedOutput(outDir, base, s, format) in SizedOutputs(outDir, base, m, sizes) <==> !Skipped(m, s)
    decreases |sizes|
  {
    OnlyKeptSizes(outDir, base, m, sizes);
    if !Skipped(m, s) {
      if sizes[0] == s {
        var j :| 0 <= j < |Formats| && Formats[j] == format;
        assert FormatOutputs(outDir, base, s)[j] == SizedOutput(outDir, base, s, format);
      } else {
        KeptSizeIsWritten(outDir, base, m, sizes[1..], s, format);
      }
    }
  }

  /** An image smaller than the thumbnail in both directions gets only the full-size copies. */
  lemma TinyImageGetsOnlyFullSize(outDir: string, file: string, w: nat, h: nat)
    requires '/' !in file && w < 150 && h < 150
    ensures Plan(outDir, file, Metadata(Some(w), Some(h))) == FullOutputs(outDir, Basename(file))
  {
    var m := Metadata(Some(w), Some(h));
    assert forall s :: s in Sizes ==> s.width >= 150 && s.height >= 150;
    AllSkipped(outDir, Basename(file), m, Sizes);
  }

  /** When every size is skipped no resized output is planned. */
  lemma {:induction false} AllSkipped(outDir: string, base: string, m: Metadata, sizes: seq<Size>)
    requires forall s :: s in sizes ==> Skipped(m, s)
    ensures SizedOutputs(outDir, base, m, sizes) == []
    decreases |sizes|
  {
    if sizes != [] {
      AllSkipped(outDir, base, m, sizes[1..]);
    }
  }

  /** When no size is skipped every size gets both formats. */
  lemma {:induction false} NothingSkipped(outDir: string, base: string, m: Metadata, sizes: seq<Size>)
    requires forall s :: s in sizes ==> !Skipped(m, s)
    ensures |SizedOutputs(outDir, base, m, sizes)| == |Formats| * |sizes|
    decreases |sizes|
  {
    if sizes != [] {
      NothingSkipped(outDir, base, m, sizes[1..]);
    }
  }

  /** An image at least as wide as the hero size (or whose dimensions are not reported) gets
      all five sizes in both formats, plus the two full-size copies. */
  lemma LargeImageGetsEverySize(outDir: string, file: string, m: Metadata)
    requires '/' !in file
    requires m.width.None? || m.height.None? || m.width.value >= 1920 || m.height.value >= 1080
    ensures |Plan(outDir, file, m)| == 12
  {
    assert forall s :: s in Sizes ==> s.width <= 1920 && s.height <= 1080;
    NothingSkipped(outDir, Basename(file), m, Sizes);
  }

  /** The full-size copies: WebP first, then JPEG, directly under the output directory. */
  lemma FullOutputsOrder(outDir: string, base: string)
    ensures FullOutputs(outDir, base) == [FullOutput(outDir, base, "webp"), FullOutput(outDir, base, "jpg")]
    ensures FullOutput(outDir, base, "webp").path == outDir + "/" + base + "-full.webp"
    ensures FullOutput(outDir, base, "jpg").path == outDir + "/" + base + "-full.jpg"
    ensures FullOutput(outDir, base, "webp").resize.None? && FullOutput(outDir, base, "jpg").resize.None?
  {
  }

  /** Whatever the metadata, the plan ends with the full-size copies. */
  lemma FullSizeLast(outDir: string, file: string, m: Metadata)
    requires '/' !in file
    ensures var p := Plan(outDir, file, m);
      |p| >= 2 && p[|p| - 2..] == FullOutputs(outDir, Basename(file))
  {
    var a := SizedOutputs(outDir, Basename(file), m, Sizes);
    var b := FullOutputs(outDir, Basename(file));
    assert (a + b)[|a + b| - 2..] == b;
  }

  /** Two inputs that differ only in their extension have the same plan: the later one
      overwrites the earlier one's outputs. */
  lemma SameStemSamePlan(outDir: string, stem: string, e1: string, e2: string, m: Metadata)
    requires '/' !in stem && '/' !in e1 && '/' !in e2 && '.' !in e1 && '.' !in e2
    requires stem != "" && stem != "."
    ensures Plan(outDir, stem + "." + e1, m) == Plan(outDir, stem + "." + e2, m)
  {
    BasenameStripsFinalExtension(stem, e1);
    BasenameStripsFinalExtension(stem, e2);
  }

  // ---------------------------------------------------------------------------------------
  // Running the plan

  /** The outputs written before the first failing write (the `await` that throws ends the
      `try` block): the longest prefix of the plan whose writes all succeed. */
  function Completed(plan: seq<Output>, written: string -> bool): (r: seq<Output>)
    ensures |r| <= |plan|
  {
    if plan == [] then []
    else if written(plan[0].path) then [plan[0]] + Completed(plan[1..], written)
    else []
  }

  /** What gets written is a prefix of the plan, every write in it succeeded, and the write
      after it (if any) failed. */
  lemma {:induction false} CompletedIsWrittenPrefix(plan: seq<Output>, written: string -> bool)
    ensures var r := Completed(plan, written);
      r == plan[..|r|] && (forall i :: 0 <= i < |r| ==> written(r[i].path))
      && (|r| < |plan| ==> !written(plan[|r|].path))
    decreases |plan|
  {
    if plan != [] && written(plan[0].path) {
      CompletedIsWrittenPrefix(plan[1..], written);
      var r := Completed(plan[1..], written);
      assert plan[..|r| + 1] == [plan[0]] + plan[1..][..|r|];
    }
  }

  /** With every write succeeding, the whole plan is written. */
  lemma {:induction false} AllWritten(plan: seq<Output>, written: string -> bool)
    requires forall o :: o in plan ==> written(o.path)
    ensures Completed(plan, written) == plan
    decreases |plan|
  {
    if plan != [] {
      AllWritten(plan[1..], written);
    }
  }

  /** `r` is a prefix of `plan` whose every write succeeded. */
  predicate WrittenPrefix(r: seq<Output>, plan: seq<Output>, written: string -> bool) {
    |r| <= |plan| && r == plan[..|r|] && forall i :: 0 <= i < |r| ==> written(r[i].path)
  }

  /** The outputs of `processImage` for one file: none when its metadata cannot be read,
      otherwise those written before the first failure. */
  function Created(outDir: string, file: string, metadata: Option<Metadata>, written: string -> bool): (r: seq<Output>)
    requires '/' !in file
    ensures metadata.None? ==> r == []
    ensures metadata.Some? ==> WrittenPrefix(r, Plan(outDir, file, metadata.value), written)
  {
    match metadata
    case None => []
    case Some(m) =>
      CompletedIsWrittenPrefix(Plan(outDir, file, m), written);
      Completed(Plan(outDir, file, m), written)
  }

  /** Running two stretches of the plan: the second starts only if the whole first one was
      written. */
  lemma {:induction false} CompletedConcat(a: seq<Output>, b: seq<Output>, written: string -> bool)
    ensures Completed(a + b, written) ==
      if Completed(a, written) == a then a + Completed(b, written) else Completed(a, written)
    decreases |a|
  {
    if a != [] {
      assert (a + b)[0] == a[0] && (a + b)[1..] == a[1..] + b;
      CompletedConcat(a[1..], b, written);
      if written(a[0].path) {
        assert Completed(a, written) == [a[0]] + Completed(a[1..], written);
        assert a == [a[0]] + a[1..];
      }
    } else {
      assert a + b == b;
    }
  }

  /** The plan from the `i`-th size on: that size's outputs unless it is skipped, then the
      plan from the next size on. */
  lemma SizeUnfold(outDir: string, base: string, m: Metadata, i: nat)
    requires i < |Sizes|
    ensures SizedOutputs(outDir, base, m, Sizes[i..]) + FullOutputs(outDir, base) ==
      (if Skipped(m, Sizes[i]) then [] else FormatOutputs(outDir, base, Sizes[i]))
      + (SizedOutputs(outDir, base, m, Sizes[i + 1..]) + FullOutputs(outDir, base))
  {
    assert Sizes[i..][1..] == Sizes[i + 1..];
    PendingUnfold(outDir, base, m, Sizes[i..], FullOutputs(outDir, base));
  }

  /** After one size's loop: if all its outputs were written the run goes on with the rest of
      the plan, otherwise it ends with what was written. */
  lemma SizeStep(created: seq<Output>, outs: seq<Output>, rest: seq<Output>, done: seq<Output>, written: string -> bool)
    requires done == Completed(outs, written)
    ensures done == outs ==> created + Completed(outs + rest, written) == (created + done) + Completed(rest, written)
    ensures done != outs ==> created + Completed(outs + rest, written) == created + done
  {
    CompletedConcat(outs, rest, written);
  }

  /** A successful write moves the next planned output to the written ones. */
  lemma Advance(created: seq<Output>, pending: seq<Output>, written: string -> bool)
    requires pending != [] && written(pending[0].path)
    ensures created + Completed(pending, written) == (created + [pending[0]]) + Completed(pending[1..], written)
  {
  }

  /** The plan from a size on, unfolded by one size. */
  lemma PendingUnfold(outDir: string, base: string, m: Metadata, sizes: seq<Size>, tail: seq<Output>)
    requires sizes != []
    ensures SizedOutputs(outDir, base, m, sizes) + tail ==
      (if Skipped(m, sizes[0]) then [] else FormatOutputs(outDir, base, sizes[0]))
      + (SizedOutputs(outDir, base, m, sizes[1..]) + tail)
  {
  }

  /** The outputs of one size from a format on, unfolded by one format. */
  lemma FormatStep(outDir: string, base: string, s: Size, j: nat)
    requires j < |Formats|
    ensures FormatOutputs(outDir, base, s)[j..] ==
      [SizedOutput(outDir, base, s, Formats[j])] + FormatOutputs(outDir, base, s)[j + 1..]
  {
  }

  /** The full-size outputs from a format on, unfolded by one format. */
  lemma FullStep(outDir: string, base: string, j: nat)
    requires j < |Formats|
    ensures FullOutputs(outDir, base)[j..] == [FullOutput(outDir, base, Formats[j])] + FullOutputs(outDir, base)[j + 1..]
  {
  }

  /** The inner `for (const format of config.formats)` loop for one kept size: each format is
      resized and written in turn; a failing write throws out of the loop. */
  method WriteSize(outDir: string, base: string, size: Size, written: string -> bool)
    returns (created: seq<Output>)
    ensures created == Completed(FormatOutputs(outDir, base, size), written)
  {
    ghost var pending := FormatOutputs(outDir, base, size);
    created := [];
    var j := 0;
    while j < |Formats|
      invariant 0 <= j <= |Formats|
      invariant pending == FormatOutputs(outDir, base, size)[j..]
      invariant Completed(FormatOutputs(outDir, base, size), written) == created + Completed(pending, written)
    {
      var format := Formats[j];
      var outputFilename := OutputFilename(base, size.name, format);
      var out := Output(outDir + "/" + size.name + "/" + outputFilename, Some(size), EncodingFor(format));
      FormatStep(outDir, base, size, j);
      if !written(out.path) {
        return;
      }
      Advance(created, pending, written);
      created := created + [out];
      pending := pending[1..];
      j := j + 1;
    }
  }

  /** The loop writing the full-size copies, each format in turn. */
  method WriteFullSize(outDir: string, base: string, written: string -> bool)
    returns (created: seq<Output>)
    ensures created == Completed(FullOutputs(outDir, base), written)
  {
    ghost var pending := FullOutputs(outDir, base);
    created := [];
    var j := 0;
    while j < |Formats|
      invariant 0 <= j <= |Formats|
      invariant pending == FullOutputs(outDir, base)[j..]
      invariant Completed(FullOutputs(outDir, base), written) == created + Completed(pending, written)
    {
      var format := Formats[j];
      var out := Output(outDir + "/" + OutputFilename(base, "full", format), None, EncodingFor(format));
      FullStep(outDir, base, j);
      if !written(out.path) {
        return;
      }
      Advance(created, pending, written);
      created := created + [out];
      pending := pending[1..];
      j := j + 1;
    }
  }

  /** `processImage`: each size not skipped is resized and written in each format, then the
      full-size copies are written; an error (unreadable metadata, a failing write) is caught
      and ends the processing of this file. */
  method ProcessImage(outDir: string, file: string, metadata: Option<Metadata>, written: string -> bool)
    returns (created: seq<Output>)
    requires '/' !in file
    ensures created == Created(outDir, file, metadata, written)
  {
    if metadata.None? {
      return [];
    }
    var m := metadata.value;
    var base := Basename(file);
    created := [];
    var i := 0;
    while i < |Sizes|
      invariant 0 <= i <= |Sizes|
      invariant Completed(Plan(outDir, file, m), written) ==
        created + Completed(SizedOutputs(outDir, base, m, Sizes[i..]) + FullOutputs(outDir, base), written)
    {
      var size := Sizes[i];
      ghost var here := SizedOutputs(outDir, base, m, Sizes[i..]) + FullOutputs(outDir, base);
      ghost var rest := SizedOutputs(outDir, base, m, Sizes[i + 1..]) + FullOutputs(outDir, base);
      SizeUnfold(outDir, base, m, i);
      if Skipped(m, size) {
        assert here == rest;
        i := i + 1;
        continue;
      }
      var sizeOutputs := WriteSize(outDir, base, size, written);
      SizeStep(created, FormatOutputs(outDir, base, size), rest, sizeOutputs, written);
      created := created + sizeOutputs;
      if sizeOutputs != FormatOutputs(outDir, base, size) {
        return;
      }
      i := i + 1;
    }
    var fullOutputs := WriteFullSize(outDir, base, written);
    created := created + fullOutputs;
  }

  /** How a run of `optimizeImages` ends. `Failed`: creating the directories threw (the outer
      `catch`); `NoInputDirectory`: the input directory could not be listed; `NoImageFiles`: it
      holds no image file; otherwise each image was processed, with what it wrote. */
  datatype RunOutcome =
    | Failed
    | NoInputDirectory
    | NoImageFiles
    | Processed(files: seq<string>, created: seq<seq<Output>>)

  /** `optimizeImages`. `listing` is what `fs.readdir` returns (`None` when it throws),
      `metadataOf` what `image.metadata()` answers for a file (`None` when it throws) and
      `written` whether `toFile` succeeds for a path. */
  method Optimize(outDir: string, directoriesCreated: bool, listing: Option<seq<string>>,
                  metadataOf: string -> Option<Metadata>, written: string -> bool)
    returns (outcome: RunOutcome)
    requires listing.Some? ==> forall f :: f in listing.value ==> '/' !in f
    ensures !directoriesCreated ==> outcome == Failed
    ensures directoriesCreated && listing.None? ==> outcome == NoInputDirectory
    ensures directoriesCreated && listing.Some? && ImageFiles(listing.value) == [] ==> outcome == NoImageFiles
    ensures directoriesCreated && listing.Some? && ImageFiles(listing.value) != [] ==>
      outcome.Processed? && outcome.files == ImageFiles(listing.value) && |outcome.created| == |outcome.files|
    ensures outcome.Processed? ==> forall k :: 0 <= k < |outcome.files| ==>
      ('/' !in outcome.files[k] &&
       outcome.created[k] == Created(outDir, outcome.files[k], metadataOf(outcome.files[k]), written))
  {
    if !directoriesCreated {
      return Failed;
    }
    if listing.None? {
      return NoInputDirectory;
    }
    var imageFiles := ImageFiles(listing.value);
    if |imageFiles| == 0 {
      return NoImageFiles;
    }
    var results: seq<seq<Output>> := [];
    for k := 0 to |imageFiles|
      invariant |results| == k
      invariant forall n :: 0 <= n < k ==>
        ('/' !in imageFiles[n] && results[n] == Created(outDir, imageFiles[n], metadataOf(imageFiles[n]), written))
    {
      assert imageFiles[k] in listing.value;
      var created := ProcessImage(outDir, imageFiles[k], metadataOf(imageFiles[k]), written);
      results := results + [created];
    }
    outcome := Processed(imageFiles, results);
  }
}
