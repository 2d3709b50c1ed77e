/**
 * resolve_processed_video_path: the path under /outputs/ that the dashboard links a record's
 * processed video to. What the file system answers (whether a path exists, which files a
 * glob matches and how recent they are, and whether that lookup raises) is passed in;
 * which values make os.path raise is modelled.
 */
module ProcessedVideo {
  import opened Wrappers
  import opened Text
  import opened Values
  import opened UploadFilter

  /**
   * What sorted(glob(pattern), key=os.path.getmtime, reverse=True) yields: no match, the
   * most recently modified match, or an exception (getmtime on a dangling link or on a
   * file removed after the glob).
   */
  datatype Lookup = NoMatch | Newest(file: string) | LookupFails

  /**
   * The questions the function asks the file system: whether a text path exists,
   * whether an integer is an open file descriptor (os.path.exists accepts one), and the
   * lookup of the output directory's files matching processed_*{stem}*.mp4.
   */
  datatype FileSystem = FileSystem(pathExists: string -> bool, openDescriptor: int -> bool,
                                   newestProcessed: string -> Lookup)

  /** The C int range os.stat accepts a file descriptor in; outside it raises OverflowError. */
  predicate FitsCInt(i: int)
  {
    -0x8000_0000 <= i < 0x8000_0000
  }

  /**
   * os.path.exists(v) raises instead of answering for a truthy v: os.stat rejects a dict
   * (TypeError) and an integer outside the C int range (OverflowError), and exists
   * catches neither.
   */
  predicate StatRaises(v: Value)
  {
    v.Dict? || (v.Int? && !FitsCInt(v.i))
  }

  /** os.path.splitext(name)[0]: the name without its extension. */
  function Stem(name: string): string
  {
    name[..|name| - |SplitextExtension(name)|]
  }

  /** The stem followed by the extension splitext finds is the whole name. */
  lemma StemThenExtension(name: string)
    ensures Stem(name) + SplitextExtension(name) == name
  {
    var ext := SplitextExtension(name);
    if ext != [] {
      assert ext == name[LastIndexOf(name, '.')..];
    }
  }

  /** f"/outputs/{os.path.basename(file)}". */
  function OutputsPath(file: string): (url: string)
    ensures StartsWith(url, "/outputs/")
    ensures forall k :: |"/outputs/"| <= k < |url| ==> url[k] != '/'
  {
    "/outputs/" + Basename(file)
  }

  /**
   * os.path.exists(v) for a truthy v that os.stat accepts: a text path, or an integer
   * (a boolean counts as 0 or 1) naming a file descriptor.
   */
  predicate Exists(v: Value, fs: FileSystem)
  {
    match v
    case Str(s) => fs.pathExists(s)
    case Int(i) => FitsCInt(i) && fs.openDescriptor(i)
    case Bool(b) => fs.openDescriptor(if b then 1 else 0)
    case _ => false
  }

  /** The fallback's file lookup raises for the stem of this video name. */
  predicate LookupRaises(name: string, fs: FileSystem)
  {
    var stem := Stem(Basename(name));
    stem != [] && fs.newestProcessed(stem).LookupFails?
  }

  /**
   * resolve_processed_video_path: the stored output file when output_path exists; else
   * the newest processed file named after the stem of the video's name; else "". None is
   * an exception: os.stat on a dict or on an integer outside the C int range,
   * os.path.basename on a descriptor that exists or on a video_name that is not a text,
   * or the failing file lookup.
   */
  function ResolveProcessedVideoPath(record: Fields, fs: FileSystem): (path: Option<string>)
    ensures var out := Get(record, "output_path", Str(""));
      out.Str? && out.s != [] && fs.pathExists(out.s) ==> path == Some("/outputs/" + Basename(out.s))
    ensures var out := Get(record, "output_path", Str(""));
      out.Dict? && out.fields != map[] ==> path.None?
    ensures var out := Get(record, "output_path", Str(""));
      out.Int? && !FitsCInt(out.i) ==> path.None?
    ensures var out := Get(record, "output_path", Str("")); var name := Get(record, "video_name", Str(""));
      !(Truthy(out) && (StatRaises(out) || Exists(out, fs))) ==>
        (path.Some? <==> name.Str? && !LookupRaises(name.s, fs))
    ensures path.Some? && path.value != [] ==>
      StartsWith(path.value, "/outputs/") && forall k :: |"/outputs/"| <= k < |path.value| ==> path.value[k] != '/'
  {
    var out := Get(record, "output_path", Str(""));
    if Truthy(out) && StatRaises(out) then None
    else if Truthy(out) && Exists(out, fs) then
      if out.Str? then Some(OutputsPath(out.s)) else None
    else LegacyPath(Get(record, "video_name", Str("")), fs)
  }

  /**
   * The fallback for records without an existing output file: the newest processed file
   * named after the stem of the video's name, or "" when there is no stem or no such file.
   */
  function LegacyPath(name: Value, fs: FileSystem): (path: Option<string>)
    ensures path.None? <==> !name.Str? || LookupRaises(name.s, fs)
    ensures name.Str? && Basename(name.s) == [] ==> path == Some("")
    ensures path.Some? && path.value != [] ==>
      StartsWith(path.value, "/outputs/") && forall k :: |"/outputs/"| <= k < |path.value| ==> path.value[k] != '/'
  {
    if !name.Str? then None
    else
      var stem := Stem(Basename(name.s));
      if stem == [] then Some("")
      else
        match fs.newestProcessed(stem)
        case NoMatch => Some("")
        case Newest(file) => Some(OutputsPath(file))
        case LookupFails => None
  }

  /** A video name whose base name is empty, such as "" or "clips/", links to nothing. */
  lemma NoStemNoLink(record: Fields, fs: FileSystem)
    requires var out := Get(record, "output_path", Str("")); out.Str? && (out.s == [] || !fs.pathExists(out.s))
    requires Get(record, "video_name", Str("")).Str?
    requires Stem(Basename(Get(record, "video_name", Str("")).s)) == []
    ensures ResolveProcessedVideoPath(record, fs) == Some("")
  {
    var out := Get(record, "output_path", Str(""));
    var name := Get(record, "video_name", Str(""));
    assert !(Truthy(out) && Exists(out, fs));
    assert ResolveProcessedVideoPath(record, fs) == LegacyPath(name, fs);
    assert Stem(Basename(name.s)) == [];
  }
}
