/** The file server of internal/wsinject/wsinject.go: it mirrors the master
    tree into a scratch directory, splices the live-reload `<script>` tag in
    front of the first `</head>` of every HTML page, registers every
    directory with the file watcher, and on each write event re-mirrors the
    file and announces its master-relative path.

    The filesystem is a map from path to contents together with the set of
    paths whose directory creation or write fails; the directory walk and
    the watcher are sequences of inputs; content sniffing is the parameter
    `isHtml`. */
module WsInject {
  import opened Wrappers
  import opened GoStrings

  newtype byte = x: int | 0 <= x < 256

  type Bytes = seq<byte>

  /** Encodes a string one byte per character; for the ASCII constants below
      this is their UTF-8 encoding. */
  function Ascii(s: string): Bytes {
    seq(|s|, i requires 0 <= i < |s| => (s[i] as int % 256) as byte)
  }

  lemma AsciiConcat(a: string, b: string)
    ensures Ascii(a + b) == Ascii(a) + Ascii(b)
  {
  }

  /** The tag in front of which the script is spliced. */
  const HeadClose: string := "</head>"

  /** The generated client script, written at the root of the mirror. */
  const ScriptFileName: string := "delta-streamer.js"

  const ScriptTagOpen: string := "<!-- This script has been injected by sws and allows hot reloads -->\n<script type=\"module\" src=\""

  /** `deltaStreamer`: the tag that loads the client script. */
  const DeltaStreamer: string := ScriptTagOpen + ScriptFileName + "\"></script>"

  // ---------------------------------------------------------------------
  // injectScript and injectWebsocketScript
  // ---------------------------------------------------------------------

  datatype InjectError = NoHeaderTagFound

  /** The two results of `injectScript`: the bytes and the error. */
  datatype Injection = Injection(out: Bytes, err: Option<InjectError>)

  /** `injectScript`: splices `scriptTag` in front of the first `</head>`.
      Without a `</head>` the input comes back unchanged together with
      `ErrNoHeaderTagFound`. The buffer writes of the Go code cannot fail. */
  function InjectScript(html: Bytes, scriptTag: string): (r: Injection)
    ensures r.err.Some? <==> !Contains(html, Ascii(HeadClose))
    ensures r.err.Some? ==> r.err == Some(NoHeaderTagFound) && r.out == html
    ensures r.err.None? ==> |r.out| == |html| + |scriptTag|
    ensures forall i :: FirstOccurrence(html, Ascii(HeadClose), i) ==>
              r.out == html[..i] + Ascii(scriptTag) + html[i..]
  {
    var idx := Index(html, Ascii(HeadClose));
    if idx == -1 then Injection(html, Some(NoHeaderTagFound))
    else Injection(html[..idx] + Ascii(scriptTag) + html[idx..], None)
  }

  /** The bytes before the spliced tag are the input up to its first
      `</head>`, and they hold no `</head>` of their own. */
  lemma InjectSplitsAtFirstHead(html: Bytes, scriptTag: string)
    requires Contains(html, Ascii(HeadClose))
    ensures var i := Index(html, Ascii(HeadClose));
            var out := InjectScript(html, scriptTag).out;
            && out[..i] == html[..i]
            && !Contains(out[..i], Ascii(HeadClose))
            && out[i..i + |scriptTag|] == Ascii(scriptTag)
            && out[i + |scriptTag|..] == html[i..]
  {
    var i := Index(html, Ascii(HeadClose));
    assert FirstOccurrence(html, Ascii(HeadClose), i);
    BeforeFirstHasNone(html, Ascii(HeadClose));
  }

  /** The three results of `injectWebsocketScript`. */
  datatype WsInjection = WsInjection(injected: bool, out: Bytes, err: Option<InjectError>)

  /** `injectWebsocketScript`: only content sniffed as HTML is touched; a
      page without `</head>` is passed through and reported as not
      injected, which is not an error. */
  function InjectWebsocketScript(b: Bytes, isHtml: Bytes -> bool): (r: WsInjection)
    ensures r.err.None?
    ensures r.injected <==> isHtml(b) && Contains(b, Ascii(HeadClose))
    ensures !r.injected ==> r.out == b
    ensures r.injected ==> r.out == InjectScript(b, DeltaStreamer).out
  {
    if !isHtml(b) then WsInjection(false, b, None)
    else
      var inj := InjectScript(b, DeltaStreamer);
      // The only error `injectScript` can return is ErrNoHeaderTagFound.
      if inj.err.Some? then WsInjection(false, inj.out, None)
      else WsInjection(true, inj.out, None)
  }

  /** An injected page references the client script by its file name. */
  lemma InjectedPageLoadsScript(b: Bytes, isHtml: Bytes -> bool)
    requires isHtml(b) && Contains(b, Ascii(HeadClose))
    ensures var r := InjectWebsocketScript(b, isHtml);
            r.injected && Contains(r.out, Ascii(ScriptFileName))
            && |r.out| == |b| + |DeltaStreamer|
  {
    var i := Index(b, Ascii(HeadClose));
    var out := InjectWebsocketScript(b, isHtml).out;
    assert out == b[..i] + Ascii(DeltaStreamer) + b[i..];
    AsciiConcat(ScriptTagOpen, ScriptFileName);
    AsciiConcat(ScriptTagOpen + ScriptFileName, "\"></script>");
    var k := |b[..i]| + |ScriptTagOpen|;
    assert out[k..k + |ScriptFileName|] == Ascii(ScriptFileName);
    assert OccursAt(out, Ascii(ScriptFileName), k);
  }

  // ---------------------------------------------------------------------
  // Relative paths (mirrorFile line 165, notifyPageUpdate line 208)
  // ---------------------------------------------------------------------

  /** The relative path as the Go code computes it:
      `strings.Replace(path, masterPath, "", -1)` deletes every occurrence
      of the master path, not only the leading one. */
  function RelativePathAsWritten(path: string, master: string): (r: string)
    ensures |r| <= |path|
    ensures master == "" || !Contains(path, master) ==> r == path
  {
    RemoveAll(path, master)
  }

  /** For `master + "/" + name` with no further occurrence of the master
      path the Go computation gives `"/" + name`. */
  lemma RelativePathAsWrittenOfChild(master: string, name: string)
    requires master != "" && !Contains("/" + name, master)
    ensures RelativePathAsWritten(master + "/" + name, master) == "/" + name
  {
    assert master + "/" + name == master + ("/" + name);
    RemoveAllLeading(master, "/" + name);
  }

  /** Two different files under the master directory `/w` get the same
      relative path, so they overwrite each other in the mirror and
      produce the same reload notification. */
  lemma RelativePathAsWrittenCollides()
    ensures var m := "/w";
            && HasPrefix("/w/a.html", m) && HasPrefix("/w/w/a.html", m)
            && RelativePathAsWritten("/w/a.html", m) == "/a.html"
            && RelativePathAsWritten("/w/w/a.html", m) == "/a.html"
  {
    var m := "/w";
    MissingElementNoOccurrence("/a.html", m, 1);
    RelativePathAsWrittenOfChild(m, "a.html");
    assert "/w/w/a.html" == m + "/w/a.html";
    RemoveAllLeading(m, "/w/a.html");
    assert "/w/a.html" == m + "/a.html";
  }

  /** The relative path as evidently intended: the master path is removed
      only as a leading prefix (`strings.TrimPrefix`). */
  function RelativePath(path: string, master: string): (r: string)
    ensures HasPrefix(path, master) ==> master + r == path
    ensures !HasPrefix(path, master) ==> r == path
  {
    if HasPrefix(path, master) then path[|master|..] else path
  }

  /** Paths under the master directory keep distinct relative paths. */
  lemma RelativePathInjective(p1: string, p2: string, master: string)
    requires HasPrefix(p1, master) && HasPrefix(p2, master)
    requires RelativePath(p1, master) == RelativePath(p2, master)
    ensures p1 == p2
  {
  }

  /** Where the master path occurs only as the leading prefix, the Go
      computation and the intended one agree. */
  lemma RelativePathAgrees(master: string, rest: string)
    requires master != "" && !Contains(rest, master)
    ensures RelativePathAsWritten(master + rest, master) == RelativePath(master + rest, master)
    ensures RelativePath(master + rest, master) == rest
  {
    RemoveAllLeading(master, rest);
    assert (master + rest)[..|master|] == master;
    assert (master + rest)[|master|..] == rest;
  }

  // ---------------------------------------------------------------------
  // Paths and the filesystem
  // ---------------------------------------------------------------------

  /** `path.Join` for already clean operands: the result starts with the
      first operand and ends with the second. */
  function JoinPath(a: string, b: string): (r: string)
    ensures |r| >= |a| + |b|
    ensures HasPrefix(r, a) && r[|r| - |b|..] == b
  {
    if b == "" then a
    else if a == "" then b
    else if b[0] == '/' then a + b
    else a + "/" + b
  }

  /** A second operand that `path.Join` keeps as it is: no empty element
      inside it or at its end, and no `.` or `..` element. Joined onto a
      clean first operand, such an operand gives `JoinPath`'s result; any
      other operand is cleaned by `path.Join` and is not modelled. */
  predicate JoinOperandClean(b: string) {
    && !Contains(b, "//")
    && (|b| > 0 ==> b[|b| - 1] != '/')
    && forall e :: e in Split(b, '/') ==> e != "." && e != ".."
  }

  /** `path.Dir` for clean paths: everything before the last slash, `/`
      for a file at the root, and `.` for a path without a slash. */
  function DirOf(p: string): (r: string)
    ensures '/' !in p ==> r == "."
    ensures '/' in p ==> r == "/" || (|r| < |p| && p[..|r|] == r && p[|r|] == '/' && '/' !in p[|r| + 1..])
    ensures r == "/" ==> '/' in p
    decreases |p|
  {
    if |p| == 0 then "."
    else if p[|p| - 1] == '/' then (if |p| == 1 then "/" else p[..|p| - 1])
    else DirOf(p[..|p| - 1])
  }

  /** Contents of every file, and the paths where creating a directory or
      writing a file fails. */
  datatype Fs = Fs(files: map<string, Bytes>, failing: set<string>)

  /** The fixed configuration of a `Fileserver`: master root, mirror root,
      content sniffing, and the directories the watcher refuses to add. */
  datatype Server = Server(master: string, mirror: string, isHtml: Bytes -> bool, unwatchable: set<string>)

  /** Where `mirrorFile` writes a master file: the mirror root joined with
      the relative path as the Go code computes it. */
  function MirroredPath(srv: Server, orig: string): string {
    JoinPath(srv.mirror, RelativePathAsWritten(orig, srv.master))
  }

  /** A file at `master + rel`, where `rel` holds no further occurrence of
      the master path, is mirrored at `mirror + rel`, the place the
      corrected relative path gives as well. */
  lemma MirrorKeepsRelativePath(srv: Server, rel: string)
    requires srv.master != "" && !Contains(rel, srv.master)
    requires srv.mirror != "" && |rel| > 0 && rel[0] == '/'
    ensures MirroredPath(srv, srv.master + rel) == srv.mirror + rel
    ensures MirroredPath(srv, srv.master + rel) == JoinPath(srv.mirror, RelativePath(srv.master + rel, srv.master))
  {
    RelativePathAgrees(srv.master, rel);
  }

  /** Under the master directory `/w`, a write to `/w/a.html` and a write
      to `/w/w/a.html` land on the same mirrored file and announce the same
      page. */
  lemma WriteEventsCollide(srv: Server, fs: Fs)
    requires srv.master == "/w"
    ensures MirroredPath(srv, "/w/a.html") == MirroredPath(srv, "/w/w/a.html")
    ensures HandleFileEvent(srv, fs, FsEvent("/w/a.html", {Write})).1 == ["/a.html"]
    ensures HandleFileEvent(srv, fs, FsEvent("/w/w/a.html", {Write})).1 == ["/a.html"]
  {
    RelativePathAsWrittenCollides();
  }

  /** Under the relative master directory `site`, the cleaned form of
      `sws serve site`, the file `site/site/a.html` gets the relative path
      `//a.html`, which `path.Join` cleans onto the mirror of `site/a.html`:
      a walk over both files is not one with separate mirrors. */
  lemma RelativeMasterCollides(srv: Server)
    requires srv.master == "site"
    ensures RelativePathAsWritten("site/a.html", "site") == "/a.html"
    ensures RelativePathAsWritten("site/site/a.html", "site") == "//a.html"
    ensures !JoinOperandClean("//a.html")
    ensures !MirrorsSeparate(srv, [WalkEntry("site/a.html", false, None), WalkEntry("site/site/a.html", false, None)])
  {
    ChildOfSite();
    NestedSite();
    assert OccursAt("//a.html", "//", 0);
    var entries := [WalkEntry("site/a.html", false, None), WalkEntry("site/site/a.html", false, None)];
    assert RelativePathAsWritten(entries[1].path, srv.master) == "//a.html";
  }

  lemma ChildOfSite()
    ensures RelativePathAsWritten("site/a.html", "site") == "/a.html"
  {
    MissingElementNoOccurrence("/a.html", "site", 0);
    RelativePathAsWrittenOfChild("site", "a.html");
    assert "site/a.html" == "site" + "/" + "a.html";
  }

  lemma NestedSite()
    ensures RelativePathAsWritten("site/site/a.html", "site") == "//a.html"
  {
    var m := "site";
    assert ['/'] + "/a.html" == "//a.html";
    assert "site/site/a.html" == m + ['/'] + m + "/a.html";
    MissingElementNoOccurrence("/a.html", m, 0);
    RemoveAllTwice(m, '/', "/a.html");
  }

  /** With the master directory `.`, the cleaned form of `sws serve .`,
      every dot of a walked path is deleted. */
  lemma DotMasterDropsDots()
    ensures RelativePathAsWritten("index.html", ".") == "indexhtml"
  {
    assert "index.html" == "index" + ['.'] + "html";
    assert '.' !in "index" && '.' !in "html";
    RemoveAllSingle("index", '.', "html");
    assert "index" + "html" == "indexhtml";
  }

  datatype MirrorError = ReadFailed(path: string) | MkdirFailed(dir: string) | WriteFailed(path: string)

  /** `mirrorFile`: reads the master file, injects the script when it is an
      HTML page, creates the mirrored directory and writes the result. */
  function MirrorFile(srv: Server, fs: Fs, orig: string): (r: Result<Fs, MirrorError>)
    ensures orig !in fs.files ==> r == Err(ReadFailed(orig))
    ensures r.Ok? <==> orig in fs.files && MirroredPath(srv, orig) !in fs.failing
                       && DirOf(MirroredPath(srv, orig)) !in fs.failing
    ensures r.Ok? ==> r.value.failing == fs.failing
                      && r.value.files.Keys == fs.files.Keys + {MirroredPath(srv, orig)}
    ensures r.Ok? ==> forall p :: p in fs.files && p != MirroredPath(srv, orig) ==>
                        r.value.files[p] == fs.files[p]
    ensures r.Ok? ==> r.value.files[MirroredPath(srv, orig)]
                        == InjectWebsocketScript(fs.files[orig], srv.isHtml).out
  {
    if orig !in fs.files then Err(ReadFailed(orig))
    else
      var inj := InjectWebsocketScript(fs.files[orig], srv.isHtml);
      var dst := MirroredPath(srv, orig);
      var dir := DirOf(dst);
      if dir in fs.failing then Err(MkdirFailed(dir))
      else if dst in fs.failing then Err(WriteFailed(dst))
      else Ok(fs.(files := fs.files[dst := inj.out]))
  }

  // ---------------------------------------------------------------------
  // mirrorMaker, wsInjectMaster and Setup
  // ---------------------------------------------------------------------

  /** One call of the walk callback: the path, whether it is a directory,
      and the error the walk reports for it, if any. */
  datatype WalkEntry = WalkEntry(path: string, isDir: bool, err: Option<string>)

  datatype MakerError = WalkFailed(text: string) | WatchAddFailed(path: string) | MirrorFailed(e: MirrorError)

  /** The mirror contents and the directories registered with the watcher. */
  datatype Tree = Tree(fs: Fs, watched: seq<string>)

  /** `mirrorMaker`: passes on a walk error, registers a directory with the
      watcher without mirroring it, and mirrors a file. */
  function MirrorMaker(srv: Server, t: Tree, e: WalkEntry): (r: Result<Tree, MakerError>)
    ensures e.err.Some? ==> r == Err(WalkFailed(e.err.value))
    ensures e.err.None? && e.isDir ==>
              r == (if e.path in srv.unwatchable then Err(WatchAddFailed(e.path))
                    else Ok(Tree(t.fs, t.watched + [e.path])))
    ensures e.err.None? && !e.isDir ==>
              && (r.Ok? <==> MirrorFile(srv, t.fs, e.path).Ok?)
              && (r.Ok? ==> r.value == Tree(MirrorFile(srv, t.fs, e.path).value, t.watched))
  {
    if e.err.Some? then Err(WalkFailed(e.err.value))
    else if e.isDir then
      if e.path in srv.unwatchable then Err(WatchAddFailed(e.path))
      else Ok(t.(watched := t.watched + [e.path]))
    else
      match MirrorFile(srv, t.fs, e.path)
      case Ok(fs') => Ok(t.(fs := fs'))
      case Err(me) => Err(MirrorFailed(me))
  }

  /** `wsInjectMaster` never hands an error back: a failing callback stops
      the walk and `log.Fatalf` ends the process. */
  datatype MasterOutcome = Completed(tree: Tree) | FatalExit(err: MakerError)

  /** `wsInjectMaster`: the walk calls `mirrorMaker` on every entry in order
      and stops at the first error. */
  function WsInjectMaster(srv: Server, t: Tree, entries: seq<WalkEntry>): (r: MasterOutcome)
    ensures r.Completed? ==> r.tree.watched == t.watched + DirPaths(entries)
    ensures r.Completed? ==> r.tree.fs.failing == t.fs.failing
    decreases |entries|
  {
    if |entries| == 0 then Completed(t)
    else
      match MirrorMaker(srv, t, entries[0])
      case Err(e) => FatalExit(e)
      case Ok(t') => WsInjectMaster(srv, t', entries[1..])
  }

  /** The directories among the walk's entries, in walk order. */
  function DirPaths(entries: seq<WalkEntry>): seq<string>
    decreases |entries|
  {
    if |entries| == 0 then []
    else (if entries[0].isDir then [entries[0].path] else []) + DirPaths(entries[1..])
  }

  /** A completed walk keeps every file it found and leaves a file at the
      mirrored path of every walked file. */
  lemma {:induction false} MasterCoversTree(srv: Server, t: Tree, entries: seq<WalkEntry>)
    requires WsInjectMaster(srv, t, entries).Completed?
    ensures var t' := WsInjectMaster(srv, t, entries).tree;
            && t.fs.files.Keys <= t'.fs.files.Keys
            && forall k :: 0 <= k < |entries| && !entries[k].isDir ==>
                 MirroredPath(srv, entries[k].path) in t'.fs.files
    decreases |entries|
  {
    if |entries| > 0 {
      var t1 := MirrorMaker(srv, t, entries[0]).value;
      MasterCoversTree(srv, t1, entries[1..]);
      var t' := WsInjectMaster(srv, t, entries).tree;
      forall k | 0 <= k < |entries| && !entries[k].isDir
        ensures MirroredPath(srv, entries[k].path) in t'.fs.files
      {
        if k > 0 {
          assert entries[1..][k - 1] == entries[k];
        }
      }
    }
  }

  /** Every walked file's relative path is one `path.Join` keeps as it is,
      so that its mirrored path is the file Go writes; and the mirrored
      paths are pairwise distinct and none of them is itself a walked file:
      no mirror write overwrites another one or a master file the walk has
      still to read. */
  predicate MirrorsSeparate(srv: Server, entries: seq<WalkEntry>) {
    forall i, j :: 0 <= i < |entries| && 0 <= j < |entries| && !entries[i].isDir && !entries[j].isDir ==>
      && JoinOperandClean(RelativePathAsWritten(entries[i].path, srv.master))
      && MirroredPath(srv, entries[i].path) != entries[j].path
      && (i != j ==> MirroredPath(srv, entries[i].path) != MirroredPath(srv, entries[j].path))
  }

  /** A file the walk writes no mirror copy onto keeps its contents. */
  lemma {:induction false} MasterFrame(srv: Server, t: Tree, entries: seq<WalkEntry>, key: string)
    requires WsInjectMaster(srv, t, entries).Completed?
    requires key in t.fs.files
    requires forall j :: 0 <= j < |entries| && !entries[j].isDir ==> MirroredPath(srv, entries[j].path) != key
    ensures var t' := WsInjectMaster(srv, t, entries).tree;
            key in t'.fs.files && t'.fs.files[key] == t.fs.files[key]
    decreases |entries|
  {
    if |entries| > 0 {
      var t1 := MirrorMaker(srv, t, entries[0]).value;
      forall j | 0 <= j < |entries[1..]| && !entries[1..][j].isDir
        ensures MirroredPath(srv, entries[1..][j].path) != key
      {
        assert entries[1..][j] == entries[j + 1];
      }
      MasterFrame(srv, t1, entries[1..], key);
    }
  }

  /** After a completed walk whose mirror writes are separate, the mirrored
      path of every walked file holds that file's contents with the script
      injected. */
  lemma {:induction false} MasterMirrorsContents(srv: Server, t: Tree, entries: seq<WalkEntry>)
    requires WsInjectMaster(srv, t, entries).Completed?
    requires MirrorsSeparate(srv, entries)
    ensures var t' := WsInjectMaster(srv, t, entries).tree;
            forall k :: 0 <= k < |entries| && !entries[k].isDir ==>
              && entries[k].path in t.fs.files
              && MirroredPath(srv, entries[k].path) in t'.fs.files
              && t'.fs.files[MirroredPath(srv, entries[k].path)]
                 == InjectWebsocketScript(t.fs.files[entries[k].path], srv.isHtml).out
    decreases |entries|
  {
    if |entries| > 0 {
      var e := entries[0];
      var t1 := MirrorMaker(srv, t, e).value;
      var rest := entries[1..];
      forall i, j | 0 <= i < |rest| && 0 <= j < |rest| && !rest[i].isDir && !rest[j].isDir
        ensures JoinOperandClean(RelativePathAsWritten(rest[i].path, srv.master))
        ensures MirroredPath(srv, rest[i].path) != rest[j].path
        ensures i != j ==> MirroredPath(srv, rest[i].path) != MirroredPath(srv, rest[j].path)
      {
        assert rest[i] == entries[i + 1] && rest[j] == entries[j + 1];
      }
      MasterMirrorsContents(srv, t1, rest);
      var t' := WsInjectMaster(srv, t, entries).tree;
      if !e.isDir {
        forall j | 0 <= j < |rest| && !rest[j].isDir
          ensures MirroredPath(srv, rest[j].path) != MirroredPath(srv, e.path)
        {
          assert rest[j] == entries[j + 1];
        }
        MasterFrame(srv, t1, rest, MirroredPath(srv, e.path));
      }
      forall k | 0 <= k < |entries| && !entries[k].isDir
        ensures && entries[k].path in t.fs.files
                && MirroredPath(srv, entries[k].path) in t'.fs.files
                && t'.fs.files[MirroredPath(srv, entries[k].path)]
                   == InjectWebsocketScript(t.fs.files[entries[k].path], srv.isHtml).out
      {
        if k > 0 {
          assert rest[k - 1] == entries[k];
        }
      }
    }
  }

  /** An entry carrying a walk error ends the process: the walk either
      failed before it or fails on it. */
  lemma {:induction false} WalkErrorIsFatal(srv: Server, t: Tree, entries: seq<WalkEntry>, k: nat)
    requires k < |entries| && entries[k].err.Some?
    ensures WsInjectMaster(srv, t, entries).FatalExit?
    decreases |entries|
  {
    var first := MirrorMaker(srv, t, entries[0]);
    if k == 0 {
      assert first == Err(WalkFailed(entries[0].err.value));
    } else if first.Ok? {
      assert entries[1..][k - 1] == entries[k];
      WalkErrorIsFatal(srv, first.value, entries[1..], k - 1);
    }
  }

  datatype SetupError = WatcherCreateFailed | ScriptWriteFailed(path: string)

  /** `Setup` either returns the mirror root, returns an error, or never
      returns because the walk ended the process. */
  datatype SetupOutcome = SetupOk(mirror: string, tree: Tree) | SetupErr(err: SetupError) | SetupExit(fatal: MakerError)

  /** `Setup`: creates the watcher, mirrors the master tree and writes the
      generated client script (whose text is the parameter `script`) at the
      root of the mirror. */
  function Setup(srv: Server, watcherOk: bool, fs: Fs, entries: seq<WalkEntry>, script: Bytes): (r: SetupOutcome)
    ensures !watcherOk ==> r == SetupErr(WatcherCreateFailed)
    ensures r.SetupOk? ==> r.mirror == srv.mirror
                           && JoinPath(srv.mirror, ScriptFileName) in r.tree.fs.files
                           && r.tree.fs.files[JoinPath(srv.mirror, ScriptFileName)] == script
                           && r.tree.watched == DirPaths(entries)
    ensures watcherOk && WsInjectMaster(srv, Tree(fs, []), entries).Completed? ==>
              (r.SetupOk? <==> JoinPath(srv.mirror, ScriptFileName) !in fs.failing)
  {
    if !watcherOk then SetupErr(WatcherCreateFailed)
    else
      match WsInjectMaster(srv, Tree(fs, []), entries)
      case FatalExit(e) => SetupExit(e)
      case Completed(t) =>
        var dst := JoinPath(srv.mirror, ScriptFileName);
        if dst in t.fs.failing then SetupErr(ScriptWriteFailed(dst))
        else SetupOk(srv.mirror, t.(fs := t.fs.(files := t.fs.files[dst := script])))
  }

  // ---------------------------------------------------------------------
  // handleFileEvent and Start
  // ---------------------------------------------------------------------

  datatype Op = Create | Write | Remove | Rename | Chmod

  datatype FsEvent = FsEvent(name: string, ops: set<Op>)

  /** What the `select` in `Start` receives next. */
  datatype WatchInput =
    | Cancelled
    | Event(ev: FsEvent)
    | EventsClosed
    | WatchError(text: string)
    | ErrorsClosed

  datatype StartError = EventChannelClosed | ErrorChannelClosed | WatcherFailed(text: string)

  /** `Start` is still looping, has returned nil, or has returned an error. */
  datatype Status = Running | Stopped | Failed(err: StartError)

  /** The mirror and the relative paths sent on `pageReloadChan` so far. */
  datatype Watch = Watch(status: Status, fs: Fs, notified: seq<string>)

  /** `handleFileEvent`: on a write, re-mirrors the file (ignoring a
      failure) and then announces its relative path, computed by
      `notifyPageUpdate` with the same `strings.Replace` as the mirror
      path; any other event is ignored. */
  function HandleFileEvent(srv: Server, fs: Fs, ev: FsEvent): (r: (Fs, seq<string>))
    ensures Write !in ev.ops ==> r == (fs, [])
    ensures Write in ev.ops ==> r.1 == [RelativePathAsWritten(ev.name, srv.master)]
    ensures Write in ev.ops ==>
              r.0 == (if MirrorFile(srv, fs, ev.name).Ok? then MirrorFile(srv, fs, ev.name).value else fs)
  {
    if Write in ev.ops then
      var fs' := match MirrorFile(srv, fs, ev.name)
                 case Ok(f) => f
                 case Err(_) => fs;
      (fs', [RelativePathAsWritten(ev.name, srv.master)])
    else (fs, [])
  }

  /** One pass of the `select` loop in `Start`. */
  function StartStep(srv: Server, w: Watch, input: WatchInput): (w': Watch)
    requires w.status == Running
    ensures input.Cancelled? ==> w' == w.(status := Stopped)
    ensures input.EventsClosed? ==> w' == w.(status := Failed(EventChannelClosed))
    ensures input.ErrorsClosed? ==> w' == w.(status := Failed(ErrorChannelClosed))
    ensures input.WatchError? ==> w' == w.(status := Failed(WatcherFailed(input.text)))
    ensures input.Event? ==> w'.status == Running
  {
    match input
    case Cancelled => w.(status := Stopped)
    case Event(ev) =>
      var (fs', sent) := HandleFileEvent(srv, w.fs, ev);
      Watch(Running, fs', w.notified + sent)
    case EventsClosed => w.(status := Failed(EventChannelClosed))
    case WatchError(text) => w.(status := Failed(WatcherFailed(text)))
    case ErrorsClosed => w.(status := Failed(ErrorChannelClosed))
  }

  /** The state after `Start` has consumed a prefix of its inputs, and the
      length of that prefix. */
  datatype StartRun = StartRun(watch: Watch, consumed: nat)

  /** `Start`: loops over its inputs until one of them ends the loop. */
  function Start(srv: Server, w: Watch, inputs: seq<WatchInput>): (r: StartRun)
    requires w.status == Running
    ensures r.consumed <= |inputs|
    ensures r.watch.status == Running <==> r.consumed == |inputs| && (|inputs| == 0 || inputs[|inputs| - 1].Event?)
    decreases |inputs|
  {
    if |inputs| == 0 then StartRun(w, 0)
    else
      var w' := StartStep(srv, w, inputs[0]);
      if w'.status != Running then StartRun(w', 1)
      else
        var r := Start(srv, w', inputs[1..]);
        StartRun(r.watch, r.consumed + 1)
  }

  /** The position of the first input that ends the loop, or `|inputs|`. */
  function FirstStop(inputs: seq<WatchInput>): (k: nat)
    ensures k <= |inputs|
    ensures forall j :: 0 <= j < k ==> inputs[j].Event?
    ensures k < |inputs| ==> !inputs[k].Event?
    decreases |inputs|
  {
    if |inputs| == 0 || !inputs[0].Event? then 0 else FirstStop(inputs[1..]) + 1
  }

  /** The relative paths of the written files among some events, in order. */
  function WrittenPaths(srv: Server, inputs: seq<WatchInput>): seq<string>
    decreases |inputs|
  {
    if |inputs| == 0 then []
    else
      (if inputs[0].Event? && Write in inputs[0].ev.ops then [RelativePathAsWritten(inputs[0].ev.name, srv.master)] else [])
      + WrittenPaths(srv, inputs[1..])
  }

  /** The outcome `Start` returns for an input that ends the loop. */
  function StopStatus(input: WatchInput): Status {
    match input
    case Cancelled => Stopped
    case Event(_) => Running
    case EventsClosed => Failed(EventChannelClosed)
    case WatchError(text) => Failed(WatcherFailed(text))
    case ErrorsClosed => Failed(ErrorChannelClosed)
  }

  /** `Start` consumes events up to and including the first input that ends
      it, returns what that input dictates, and announces exactly one
      relative path per write event before it, in order. */
  lemma {:induction false} StartTrace(srv: Server, w: Watch, inputs: seq<WatchInput>)
    requires w.status == Running
    ensures var r := Start(srv, w, inputs);
            var k := FirstStop(inputs);
            && r.consumed == (if k < |inputs| then k + 1 else k)
            && r.watch.status == (if k < |inputs| then StopStatus(inputs[k]) else Running)
            && r.watch.notified == w.notified + WrittenPaths(srv, inputs[..k])
    decreases |inputs|
  {
    if |inputs| > 0 {
      var k := FirstStop(inputs);
      if inputs[0].Event? {
        var w' := StartStep(srv, w, inputs[0]);
        StartTrace(srv, w', inputs[1..]);
        assert inputs[..k][1..] == inputs[1..][..k - 1];
      } else {
        assert inputs[..0] == [];
      }
    }
  }
}
