/**
 * Which uploads count as videos. The upload page (isSupportedVideoFile) accepts a file
 * whose MIME type starts with "video/" or whose name ends in one of thirteen extensions;
 * the backend (is_supported_video_upload) applies the same rule to the lowercased content
 * type and to the lowercased, dotted extension of the file name's last path component.
 */
module UploadFilter {
  import opened Wrappers
  import opened Text

  /** The upload page's list, without dots. */
  const SupportedExtensions: seq<string> :=
    ["mp4", "avi", "mov", "mkv", "webm", "flv", "wmv", "m4v", "mpg", "mpeg", "3gp", "ts", "m2ts"]

  /** The backend's set, with dots. */
  const SupportedDottedExtensions: set<string> :=
    {".mp4", ".avi", ".mov", ".mkv", ".webm", ".flv", ".wmv", ".m4v", ".mpg", ".mpeg", ".3gp", ".ts", ".m2ts"}

  /** The two lists name the same thirteen formats. */
  lemma DottedExtensionsMatch(ext: string)
    ensures "." + ext in SupportedDottedExtensions <==> ext in SupportedExtensions
  {
    var d := "." + ext;
    assert d[1..] == ext;
    assert ".mp4" == "." + "mp4";
    assert ".avi" == "." + "avi";
    assert ".mov" == "." + "mov";
    assert ".mkv" == "." + "mkv";
    assert ".webm" == "." + "webm";
    assert ".flv" == "." + "flv";
    assert ".wmv" == "." + "wmv";
    assert ".m4v" == "." + "m4v";
    assert ".mpg" == "." + "mpg";
    assert ".mpeg" == "." + "mpeg";
    assert ".3gp" == "." + "3gp";
    assert ".ts" == "." + "ts";
    assert ".m2ts" == "." + "m2ts";
  }

  /** Every backend extension is a dot followed by at least two characters. */
  lemma DottedExtensionsShape()
    ensures forall e :: e in SupportedDottedExtensions ==> |e| >= 3 && e[0] == '.'
  {
  }

  /** Neither list holds the empty extension. */
  lemma NoEmptyExtension()
    ensures [] !in SupportedExtensions && Lower([]) !in SupportedDottedExtensions
  {
    DottedExtensionsShape();
    assert |Lower([])| == 0;
  }

  /** The last piece of the name split on dots, lowercased; "" when the name has no dot. */
  function PageExtension(name: string): (ext: string)
    ensures var d := LastIndexOf(name, '.'); ext == Lower(if d < 0 then "" else name[d + 1..])
  {
    LastIndexOfFound(name, '.');
    if '.' in name then
      var pieces := Split(name, '.');
      SplitLastPiece(name, '.');
      Lower(pieces[|pieces| - 1])
    else ""
  }

  /** isSupportedVideoFile: a "video/" MIME type (case-sensitive) or a listed extension. */
  function IsSupportedVideoFile(name: string, mimeType: string): (ok: bool)
    ensures var d := LastIndexOf(name, '.');
      ok <==> StartsWith(mimeType, "video/") || Lower(if d < 0 then "" else name[d + 1..]) in SupportedExtensions
  {
    StartsWith(mimeType, "video/") || PageExtension(name) in SupportedExtensions
  }

  /** os.path.basename: the text after the last "/". */
  function Basename(path: string): (base: string)
    ensures forall k :: 0 <= k < |base| ==> base[k] != '/'
    ensures |base| <= |path| && forall k :: 0 <= k < |base| ==> base[k] == path[|path| - |base| + k]
  {
    path[LastIndexOf(path, '/') + 1..]
  }

  predicate OnlyDots(s: string) { forall i :: 0 <= i < |s| ==> s[i] == '.' }

  /**
   * The extension os.path.splitext returns: from the last dot after the last "/" to the
   * end, unless everything between that "/" and the dot is dots (a leading-dot name such
   * as ".mp4" has no extension).
   */
  function SplitextExtension(path: string): (ext: string)
    ensures ext != [] ==> LastIndexOf(path, '.') >= 0 && ext == path[LastIndexOf(path, '.')..]
    ensures ext != [] ==> ext[0] == '.'
    ensures forall k :: 1 <= k < |ext| ==> ext[k] != '.'
    ensures forall k :: 0 <= k < |ext| ==> ext[k] != '/'
    ensures var sep := LastIndexOf(path, '/'); var dot := LastIndexOf(path, '.');
      ext != [] <==> dot > sep && exists k :: sep < k < dot && path[k] != '.'
  {
    var sep := LastIndexOf(path, '/');
    var dot := LastIndexOf(path, '.');
    if dot > sep then
      DotsBetween(path, sep, dot);
      if !OnlyDots(path[sep + 1..dot]) then
        TailFrom(path, dot, sep);
        path[dot..]
      else []
    else []
  }

  /** The text strictly between two positions is all dots exactly when every character there is a dot. */
  lemma DotsBetween(path: string, sep: int, dot: int)
    requires -1 <= sep < dot <= |path|
    ensures OnlyDots(path[sep + 1..dot]) <==> forall k :: sep < k < dot ==> path[k] == '.'
  {
    var between := path[sep + 1..dot];
    assert forall i :: 0 <= i < |between| ==> between[i] == path[sep + 1 + i];
  }

  /** A leading-dot name with a further dot, such as ".a.mp4", has an extension: the text from that dot. */
  lemma LeadingDotNameExtension(stem: string, ext: string)
    requires stem != []
    requires forall k :: 0 <= k < |stem| ==> stem[k] != '.' && stem[k] != '/'
    requires forall k :: 0 <= k < |ext| ==> ext[k] != '.' && ext[k] != '/'
    ensures SplitextExtension("." + stem + "." + ext) == "." + ext
  {
    var name := "." + stem + "." + ext;
    var dot := |stem| + 1;
    assert LastIndexOf(name, '/') == -1 by {
      assert forall k :: 1 <= k <= |stem| ==> name[k] == stem[k - 1];
      assert forall k :: dot < k < |name| ==> name[k] == ext[k - dot - 1];
      NoSlash(name);
    }
    assert LastIndexOf(name, '.') == dot by {
      assert forall k :: dot < k < |name| ==> name[k] == ext[k - dot - 1];
      LastIndexOfAt(name, '.', dot);
    }
    assert name[1] == stem[0];
    assert name[dot..] == "." + ext;
  }

  /** A run of dots in front of the last dot, as in "..mp4", does not start an extension. */
  lemma DotRunNoExtension(ext: string)
    requires forall k :: 0 <= k < |ext| ==> ext[k] != '.' && ext[k] != '/'
    ensures SplitextExtension(".." + ext) == []
  {
    var name := ".." + ext;
    assert LastIndexOf(name, '/') == -1 by {
      assert forall k :: 2 <= k < |name| ==> name[k] == ext[k - 2];
      NoSlash(name);
    }
    assert LastIndexOf(name, '.') == 1 by {
      assert forall k :: 2 <= k < |name| ==> name[k] == ext[k - 2];
      LastIndexOfAt(name, '.', 1);
    }
    assert name[0] == '.';
  }

  /** The text from the last dot on, when that dot follows the last "/". */
  lemma TailFrom(path: string, dot: int, sep: int)
    requires -1 <= sep < dot < |path| && path[dot] == '.'
    requires forall j :: dot < j < |path| ==> path[j] != '.'
    requires forall j :: sep < j < |path| ==> path[j] != '/'
    ensures var ext := path[dot..];
      && ext[0] == '.'
      && (forall k :: 1 <= k < |ext| ==> ext[k] != '.')
      && (forall k :: 0 <= k < |ext| ==> ext[k] != '/')
  {
    var ext := path[dot..];
    assert forall k :: 0 <= k < |ext| ==> ext[k] == path[dot + k];
  }

  /** is_supported_video_upload: a lowercased "video/" content type or a listed lowercased extension. */
  function IsSupportedVideoUpload(filename: Option<string>, contentType: Option<string>): (ok: bool)
    ensures var path := if filename.Some? then filename.value else "";
      var base := path[LastIndexOf(path, '/') + 1..];
      var dot := LastIndexOf(base, '.');
      var ctype := Lower(if contentType.Some? then contentType.value else "");
      ok <==> || StartsWith(ctype, "video/")
              || (dot > 0 && (exists k :: 0 <= k < dot && base[k] != '.') && Lower(base[dot..]) in SupportedDottedExtensions)
  {
    var name := Basename(if filename.Some? then filename.value else "");
    NoSlash(name);
    NoEmptyExtension();
    var extension := Lower(SplitextExtension(name));
    var ctype := Lower(if contentType.Some? then contentType.value else "");
    StartsWith(ctype, "video/") || extension in SupportedDottedExtensions
  }

  /**
   * For a plain file name that does not start with a dot and a lowercase MIME type, the
   * page and the backend decide alike.
   */
  lemma PageAndBackendAgree(name: string, mimeType: string)
    requires forall k :: 0 <= k < |name| ==> name[k] != '/'
    requires name == [] || name[0] != '.'
    requires Lower(mimeType) == mimeType
    ensures IsSupportedVideoFile(name, mimeType) == IsSupportedVideoUpload(Some(name), Some(mimeType))
  {
    PlainNameBasename(name);
    ExtensionsAgree(name);
  }

  /** On such a name the page's extension is listed exactly when the backend's is. */
  lemma ExtensionsAgree(name: string)
    requires forall k :: 0 <= k < |name| ==> name[k] != '/'
    requires name == [] || name[0] != '.'
    ensures PageExtension(name) in SupportedExtensions <==> Lower(SplitextExtension(name)) in SupportedDottedExtensions
  {
    if LastIndexOf(name, '.') >= 0 {
      DottedNameAgrees(name);
    } else {
      PlainNameNoExtension(name);
      NoEmptyExtension();
    }
  }

  /** A name with a dot: both sides judge the text after the last dot. */
  lemma DottedNameAgrees(name: string)
    requires forall k :: 0 <= k < |name| ==> name[k] != '/'
    requires name == [] || name[0] != '.'
    requires LastIndexOf(name, '.') >= 0
    ensures PageExtension(name) in SupportedExtensions <==> Lower(SplitextExtension(name)) in SupportedDottedExtensions
  {
    var rest := name[LastIndexOf(name, '.') + 1..];
    PageSideListed(name);
    BackendSideListed(name);
    DottedExtensionAgrees(rest);
  }

  /** The page lists a dotted name's extension exactly when it lists the lowercased text after the last dot. */
  lemma PageSideListed(name: string)
    requires LastIndexOf(name, '.') >= 0
    ensures PageExtension(name) in SupportedExtensions <==> Lower(name[LastIndexOf(name, '.') + 1..]) in SupportedExtensions
  {
  }

  /** The backend lists such a name's extension exactly when it lists a dot and the text after the last dot, lowercased. */
  lemma BackendSideListed(name: string)
    requires forall k :: 0 <= k < |name| ==> name[k] != '/'
    requires name == [] || name[0] != '.'
    requires LastIndexOf(name, '.') >= 0
    ensures Lower(SplitextExtension(name)) in SupportedDottedExtensions
            <==> Lower("." + name[LastIndexOf(name, '.') + 1..]) in SupportedDottedExtensions
  {
    PlainNameDottedExtension(name);
    SameMembership(SplitextExtension(name), "." + name[LastIndexOf(name, '.') + 1..], SupportedDottedExtensions);
  }

  /** Equal extensions are listed alike. */
  lemma SameMembership(ext: string, other: string, listed: set<string>)
    requires ext == other
    ensures Lower(ext) in listed <==> Lower(other) in listed
  {
  }

  /** A dot and a piece of text, lowercased, is listed by the backend when the lowercased piece is listed by the page. */
  lemma DottedExtensionAgrees(rest: string)
    ensures Lower("." + rest) in SupportedDottedExtensions <==> Lower(rest) in SupportedExtensions
  {
    LowerAppend(".", rest);
    assert Lower(".") == ".";
    DottedExtensionsMatch(Lower(rest));
  }

  /** A plain file name is its own last path component. */
  lemma PlainNameBasename(name: string)
    requires forall k :: 0 <= k < |name| ==> name[k] != '/'
    ensures Basename(name) == name
  {
    assert LastIndexOf(name, '/') == -1;
  }

  /** A plain name without a dot has no backend extension. */
  lemma PlainNameNoExtension(name: string)
    requires forall k :: 0 <= k < |name| ==> name[k] != '/'
    requires LastIndexOf(name, '.') == -1
    ensures SplitextExtension(name) == []
  {
    assert LastIndexOf(name, '/') == -1;
  }

  /** The backend's extension of a plain name that does not start with a dot: a dot and the text after the last one. */
  lemma PlainNameDottedExtension(name: string)
    requires forall k :: 0 <= k < |name| ==> name[k] != '/'
    requires name == [] || name[0] != '.'
    requires LastIndexOf(name, '.') >= 0
    ensures SplitextExtension(name) == "." + name[LastIndexOf(name, '.') + 1..]
  {
    var dot := LastIndexOf(name, '.');
    SplitextOfPlainName(name);
    SuffixFrom(name, dot);
    assert [name[dot]] == ".";
  }

  /** splitext takes such a name's extension from its last dot: the text before it is not all dots. */
  lemma SplitextOfPlainName(name: string)
    requires forall k :: 0 <= k < |name| ==> name[k] != '/'
    requires name == [] || name[0] != '.'
    requires LastIndexOf(name, '.') >= 0
    ensures SplitextExtension(name) == name[LastIndexOf(name, '.')..]
  {
    var dot := LastIndexOf(name, '.');
    NoSlash(name);
    if dot > 0 {
      FirstNotDot(name[0..dot]);
    }
  }

  lemma NoSlash(name: string)
    requires forall k :: 0 <= k < |name| ==> name[k] != '/'
    ensures LastIndexOf(name, '/') == -1
  {
  }

  lemma FirstNotDot(s: string)
    requires s != [] && s[0] != '.'
    ensures !OnlyDots(s)
  {
  }


  /**
   * Where they part, first case: a name that is only a dot and a listed extension is a
   * video to the page, while os.path.splitext gives such a name no extension at all.
   */
  lemma LeadingDotNameDiffers(ext: string)
    requires forall k :: 0 <= k < |ext| ==> ext[k] != '.' && ext[k] != '/' && !IsUpper(ext[k])
    ensures ext in SupportedExtensions ==> IsSupportedVideoFile("." + ext, "")
    ensures !IsSupportedVideoUpload(Some("." + ext), Some(""))
  {
    PageAcceptsDotfile(ext);
    BackendRefusesDotfile(ext);
  }

  /** The page judges a dotfile by the text after its dot. */
  lemma PageAcceptsDotfile(ext: string)
    requires forall k :: 0 <= k < |ext| ==> ext[k] != '.' && !IsUpper(ext[k])
    ensures ext in SupportedExtensions ==> IsSupportedVideoFile("." + ext, "")
  {
    PageJudgesLastExtension("", ext);
    assert "" + "." + ext == "." + ext;
    LowerOfNoUpper(ext);
  }

  /** The backend finds no extension in a dotfile, so without a video type it refuses it. */
  lemma BackendRefusesDotfile(ext: string)
    requires forall k :: 0 <= k < |ext| ==> ext[k] != '.' && ext[k] != '/'
    ensures !IsSupportedVideoUpload(Some("." + ext), Some(""))
  {
    LeadingDotSplitext(ext);
    PlainNameBasename("." + ext);
    NoEmptyExtension();
    assert |Lower("")| == 0;
  }

  /** os.path.splitext finds no extension in a dot followed by a dot-free name. */
  lemma LeadingDotSplitext(ext: string)
    requires forall k :: 0 <= k < |ext| ==> ext[k] != '.' && ext[k] != '/'
    ensures SplitextExtension("." + ext) == []
  {
    var name := "." + ext;
    LastIndexOfAt(name, '.', 0);
    assert LastIndexOf(name, '/') == -1;
    assert name[0..0] == [];
  }

  /**
   * Where they part, second case: an upper-case "VIDEO/" MIME type is a video to the
   * backend, which lowercases it, and not to the page, whatever the name.
   */
  lemma UpperCaseMimeDiffers(name: string)
    requires PageExtension(name) !in SupportedExtensions
    ensures !IsSupportedVideoFile(name, "VIDEO/MP4")
    ensures IsSupportedVideoUpload(Some(name), Some("VIDEO/MP4"))
  {
    UpperCaseMimeLowered();
    assert "VIDEO/MP4"[0] != "video/"[0];
  }

  /** The backend reads "VIDEO/MP4" as "video/mp4". */
  lemma UpperCaseMimeLowered()
    ensures StartsWith(Lower("VIDEO/MP4"), "video/")
  {
    LowerAppend("VIDEO/", "MP4");
    assert "VIDEO/MP4" == "VIDEO/" + "MP4";
    assert Lower("VIDEO/") == "video/";
  }

  /** The page judges a name by the lowercased text after its last dot, so "a.tar.MP4" by "mp4". */
  lemma PageJudgesLastExtension(stem: string, ext: string)
    requires forall k :: 0 <= k < |ext| ==> ext[k] != '.'
    ensures PageExtension(stem + "." + ext) == Lower(ext)
    ensures Lower(ext) in SupportedExtensions ==> IsSupportedVideoFile(stem + "." + ext, "")
  {
    var name := stem + "." + ext;
    LastIndexOfAt(name, '.', |stem|);
    assert name[|stem| + 1..] == ext;
  }
}
