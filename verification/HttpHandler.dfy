/**
  `handle_request` and the path it builds. Requests and responses are records:
  Beast's own parsing and serialising, the constant `Server` field and the bytes
  of the served file are not part of this model.
 */
module HttpHandler {
  import opened Common
  import MimeTypes

  datatype Verb = Get | Head | OtherVerb(name: string)

  datatype Request = Request(verb: Verb, target: string, version: nat, keepAlive: bool)

  /** What opening a file reports. */
  datatype OpenResult = NoSuchFile | CannotOpen(message: string) | Opened(size: nat)

  /** The file system at the moment of a request. */
  type Disk = map<string, OpenResult>

  function Open(disk: Disk, path: string): OpenResult {
    if path in disk then disk[path] else NoSuchFile
  }

  datatype Body = Text(text: string) | NoBody | FileContents(path: string)

  datatype Response = Response(status: nat, version: nat, contentType: string, keepAlive: bool,
                               contentLength: nat, body: Body)

  // ---------------------------------------------------------------------
  // The path

  function StripTrailingSlash(base: string): string {
    if base != "" && base[|base| - 1] == '/' then base[..|base| - 1] else base
  }

  /** `path_cat`, which edits a copy of the base. */
  method PathCat(base: string, path: string) returns (result: string)
    ensures result == StripTrailingSlash(base) + path
  {
    if base == "" {
      return path;
    }
    result := base;
    if result[|result| - 1] == '/' {
      result := result[..|result| - 1];
    }
    result := result + path;
  }

  /** `find` succeeds: `t` occurs at the start or further on. */
  predicate Contains(s: string, t: string) {
    t <= s || (s != "" && Contains(s[1..], t))
  }

  /** The checks on a request target. */
  predicate LegalTarget(target: string) {
    target != "" && target[0] == '/' && !Contains(target, "..")
  }

  /** The part of the path that comes after the document root. */
  function Tail(target: string): string
    requires target != ""
  {
    if target[|target| - 1] == '/' then target + "index.html" else target
  }

  function FilePath(docRoot: string, target: string): string
    requires target != ""
  {
    StripTrailingSlash(docRoot) + Tail(target)
  }

  /** The path as the handler builds it. */
  method BuildPath(docRoot: string, target: string) returns (path: string)
    requires target != ""
    ensures path == FilePath(docRoot, target)
  {
    path := PathCat(docRoot, target);
    if target[|target| - 1] == '/' {
      path := path + "index.html";
      ConcatIsAssociative(StripTrailingSlash(docRoot), target, "index.html");
    }
  }

  /** The file of a target, for a root given with or without its last slash. */
  lemma FileOfTarget(root: string, base: string, target: string)
    requires target != ""
    requires root == base + "/" || (root == base && (base == "" || base[|base| - 1] != '/'))
    ensures FilePath(root, target) == base + (target + if target[|target| - 1] == '/' then "index.html" else "")
  {
    assert StripTrailingSlash(root) == base;
    assert target + "" == target;
  }

  // ---------------------------------------------------------------------
  // The handler

  function TextResponse(status: nat, r: Request, text: string): Response {
    Response(status, r.version, "text/html", r.keepAlive, |text|, Text(text))
  }

  function HandleRequest(docRoot: string, r: Request, disk: Disk): Response {
    if !r.verb.Get? && !r.verb.Head? then TextResponse(400, r, "Unknown HTTP-method")
    else if !LegalTarget(r.target) then TextResponse(400, r, "Illegal request-target")
    else
      var path := FilePath(docRoot, r.target);
      match Open(disk, path)
      case NoSuchFile => TextResponse(404, r, "The resource '" + r.target + "' was not found.")
      case CannotOpen(message) => TextResponse(500, r, "An error occurred: '" + message + "'")
      case Opened(size) =>
        var narrowed := size % 0x1_0000;
        Response(200, r.version, MimeTypes.MimeType(path), r.keepAlive, narrowed,
                 if r.verb.Head? then NoBody else FileContents(path))
  }

  /** The announced length is the file size exactly for files below 65536 bytes. */
  lemma ContentLengthIsExact(docRoot: string, r: Request, disk: Disk)
    requires HandleRequest(docRoot, r, disk).status == 200
    ensures Open(disk, FilePath(docRoot, r.target)).Opened?
    ensures HandleRequest(docRoot, r, disk).contentLength == Open(disk, FilePath(docRoot, r.target)).size <==>
            Open(disk, FilePath(docRoot, r.target)).size < 0x1_0000
  {
    var size := Open(disk, FilePath(docRoot, r.target)).size;
    assert size % 0x1_0000 == size <==> size < 0x1_0000;
  }

  lemma {:induction false} DotsAreFound(s: string)
    ensures Contains(s, "..") <==> exists i :: 0 <= i < |s| - 1 && s[i] == '.' && s[i + 1] == '.'
  {
    if s != "" {
      var rest := s[1..];
      DotsAreFound(rest);
      if ".." <= s {
        assert s[0] == '.' && s[1] == '.';
      }
      if Contains(rest, "..") {
        var i :| 0 <= i < |rest| - 1 && rest[i] == '.' && rest[i + 1] == '.';
        assert s[i + 1] == '.' && s[i + 2] == '.';
      }
      if i :| 0 <= i < |s| - 1 && s[i] == '.' && s[i + 1] == '.' {
        assert i > 0 ==> rest[i - 1] == '.' && rest[i] == '.';
        assert i == 0 ==> ".." <= s;
      }
    }
  }

  /** The target is absolute and has no two dots in a row. */
  predicate Acceptable(target: string) {
    && target != "" && target[0] == '/'
    && forall i :: 0 <= i < |target| - 1 ==> !(target[i] == '.' && target[i + 1] == '.')
  }

  /**
    What an answer tells the client: each status has one cause. Version and
    connection wish are those of the request; a text announces its own length;
    a file answer is of the type of the path opened, and its contents are only
    sent for GET.
   */
  lemma AnswersTell(docRoot: string, r: Request, disk: Disk)
    ensures var a := HandleRequest(docRoot, r, disk);
            var asked := r.verb == Get || r.verb == Head;
            && a.version == r.version && a.keepAlive == r.keepAlive
            && (a.status == 400 <==> !asked || !Acceptable(r.target))
            && (a.status != 400 ==>
                  var path := FilePath(docRoot, r.target);
                  && (a.status == 404 <==> path !in disk || disk[path] == NoSuchFile)
                  && (a.status == 500 <==> path in disk && disk[path].CannotOpen?)
                  && (a.status == 200 <==> path in disk && disk[path].Opened?)
                  && (a.status == 200 ==> a.contentType == MimeTypes.MimeType(path))
                  && (a.status == 200 ==> a.contentLength == disk[path].size % 65536)
                  && (a.status == 200 && r.verb == Get ==> a.body == FileContents(path)))
            && (a.body.Text? <==> a.status != 200)
            && (a.body.FileContents? ==> a.status == 200 && r.verb == Get)
            && (a.body.Text? ==> a.contentType == "text/html" && a.contentLength == |a.body.text|)
  {
    hide MimeTypes.MimeType;
    DotsAreFound(r.target);
  }

  /** The texts that explain what went wrong. */
  lemma TextsExplain(docRoot: string, r: Request, disk: Disk)
    ensures var a := HandleRequest(docRoot, r, disk);
            match a.body
            case Text(text) =>
              if a.status == 404 then text == "The resource '" + r.target + "' was not found."
              else if a.status == 500 then
                exists message :: CannotOpen(message) in disk.Values && text == "An error occurred: '" + message + "'"
              else text == if r.verb == Get || r.verb == Head then "Illegal request-target" else "Unknown HTTP-method"
            case _ => a.status == 200
  {
    hide MimeTypes.MimeType, LegalTarget;
    if r.target != "" && FilePath(docRoot, r.target) in disk {
      assert disk[FilePath(docRoot, r.target)] in disk.Values;
    }
  }

  /** HEAD answers as GET does without the contents, but only for a file that opens. */
  lemma HeadAnswersLikeGet(docRoot: string, r: Request, disk: Disk)
    ensures var get := HandleRequest(docRoot, r.(verb := Get), disk);
            var head := HandleRequest(docRoot, r.(verb := Head), disk);
            && head.(body := get.body) == get
            && (head.body == NoBody <==> get.status == 200)
  {
    hide MimeTypes.MimeType;
  }

  // ---------------------------------------------------------------------
  // Resolving a path segment by segment

  /** The parts between slashes; a path has one more part than slashes. */
  function Segments(path: string): (parts: seq<string>)
    ensures parts != []
  {
    if path == "" then [""]
    else
      var parts := Segments(path[1..]);
      if path[0] == '/' then [""] + parts
      else [[path[0]] + parts[0]] + parts[1..]
  }

  /** One step of resolution; leaving the top has no effect. */
  function Enter(dir: seq<string>, part: string): seq<string> {
    if part == "" || part == "." then dir
    else if part == ".." then (if dir == [] then dir else dir[..|dir| - 1])
    else dir + [part]
  }

  function Walk(dir: seq<string>, parts: seq<string>): seq<string>
    decreases parts
  {
    if parts == [] then dir else Walk(Enter(dir, parts[0]), parts[1..])
  }

  /**
    `path` starts with `root`, and what follows never leaves the directory it is
    entered from, at any step and wherever that directory is.
   */
  ghost predicate StaysInside(root: string, path: string) {
    var n := |Segments(root)|;
    && n <= |Segments(path)|
    && Segments(path)[..n] == Segments(root)
    && NeverLeaves(Segments(path)[n..])
  }

  ghost predicate NeverLeaves(parts: seq<string>) {
    forall dir, k :: 0 <= k <= |parts| ==> dir <= Walk(dir, parts[..k])
  }

  /** How far down the parts lead, if nothing stops them at the top. */
  function Depth(parts: seq<string>): int {
    if parts == [] then 0
    else
      var last := parts[|parts| - 1];
      Depth(parts[..|parts| - 1]) + if last == "" || last == "." then 0 else if last == ".." then -1 else 1
  }

  lemma WalkOneMore(dir: seq<string>, parts: seq<string>, k: nat)
    requires k < |parts|
    ensures Walk(dir, parts[..k + 1]) == Enter(Walk(dir, parts[..k]), parts[k])
    ensures Depth(parts[..k + 1]) == Depth(parts[..k]) + Depth([parts[k]])
  {
    assert parts[..k + 1] == parts[..k] + [parts[k]];
    WalkConcat(dir, parts[..k], [parts[k]]);
    assert parts[..k + 1][..k] == parts[..k];
    assert [parts[k]][..0] == [];
  }

  lemma {:induction false} WalksDown(dir: seq<string>, parts: seq<string>, k: nat)
    requires k <= |parts| && forall j :: 0 <= j <= k ==> Depth(parts[..j]) >= 0
    ensures dir <= Walk(dir, parts[..k]) && |Walk(dir, parts[..k])| == |dir| + Depth(parts[..k])
  {
    if k > 0 {
      WalksDown(dir, parts, k - 1);
      WalkOneMore(dir, parts, k - 1);
    }
  }

  lemma {:induction false} FirstTimeAbove(parts: seq<string>, k: nat) returns (j: nat)
    requires k <= |parts| && Depth(parts[..k]) < 0
    ensures j < k && Depth(parts[..j + 1]) < 0
    ensures forall i :: 0 <= i <= j ==> Depth(parts[..i]) >= 0
  {
    if i :| 0 <= i < k && Depth(parts[..i]) < 0 {
      j := FirstTimeAbove(parts, i);
    } else {
      j := k - 1;
    }
  }

  /** Never leaving means that no step ever has more parents behind it than names. */
  lemma NeverLeavesMeansNeverAbove(parts: seq<string>)
    ensures NeverLeaves(parts) <==> forall k :: 0 <= k <= |parts| ==> Depth(parts[..k]) >= 0
  {
    if forall k :: 0 <= k <= |parts| ==> Depth(parts[..k]) >= 0 {
      forall dir, k | 0 <= k <= |parts| ensures dir <= Walk(dir, parts[..k]) {
        WalksDown(dir, parts, k);
      }
    } else {
      var k :| 0 <= k <= |parts| && Depth(parts[..k]) < 0;
      var j := FirstTimeAbove(parts, k);
      WalksDown(["root"], parts, j);
      WalkOneMore(["root"], parts, j);
      assert |Walk(["root"], parts[..j + 1])| == 0;
    }
  }

  /** The first part of a path is what comes before its first slash. */
  lemma {:induction false} FirstPart(path: string)
    ensures Segments(path)[0] <= path
  {
    if path != "" && path[0] != '/' {
      FirstPart(path[1..]);
      assert path == [path[0]] + path[1..];
    }
  }

  /** A path without two dots in a row has no parent segment. */
  lemma {:induction false} NoParentSegment(path: string)
    requires !Contains(path, "..")
    ensures ".." !in Segments(path)
  {
    if path != "" {
      NoParentSegment(path[1..]);
      FirstPart(path);
    }
  }

  lemma {:induction false} SegmentsOfConcat(a: string, b: string)
    ensures Segments(a + "/" + b) == Segments(a) + Segments(b)
  {
    var s := a + "/" + b;
    if a == "" {
      assert s[1..] == b;
    } else {
      assert s[1..] == a[1..] + "/" + b;
      SegmentsOfConcat(a[1..], b);
    }
  }

  lemma {:induction false} WalkConcat(dir: seq<string>, a: seq<string>, b: seq<string>)
    ensures Walk(dir, a + b) == Walk(Walk(dir, a), b)
    decreases a
  {
    if a == [] {
      assert a + b == b;
    } else {
      assert (a + b)[1..] == a[1..] + b;
      WalkConcat(Enter(dir, a[0]), a[1..], b);
    }
  }

  lemma {:induction false} WalkWithoutParents(dir: seq<string>, parts: seq<string>)
    requires ".." !in parts
    ensures dir <= Walk(dir, parts)
    decreases parts
  {
    if parts != [] {
      WalkWithoutParents(Enter(dir, parts[0]), parts[1..]);
    }
  }

  lemma NeverLeavesWithoutParents(parts: seq<string>)
    requires ".." !in parts
    ensures NeverLeaves(parts)
  {
    forall dir, k | 0 <= k <= |parts| ensures dir <= Walk(dir, parts[..k]) {
      WalkWithoutParents(dir, parts[..k]);
    }
  }

  lemma InsideWithoutParents(root: string, rest: string)
    requires ".." !in Segments(rest)
    ensures StaysInside(root, root + "/" + rest)
  {
    hide Segments, NeverLeaves;
    SegmentsOfConcat(root, rest);
    NeverLeavesWithoutParents(Segments(rest));
    assert Segments(root + "/" + rest)[|Segments(root)|..] == Segments(rest);
  }

  lemma AppendIndex(dir: string)
    requires ".." !in Segments(dir + "/" + "")
    ensures ".." !in Segments(dir + "/" + "index.html")
  {
    hide Segments;
    SegmentsOfConcat(dir, "");
    SegmentsOfConcat(dir, "index.html");
    IndexHasNoParents();
    forall part | part in Segments(dir + "/" + "index.html") ensures part != ".." {
      assert part in Segments(dir) || part in Segments("index.html");
    }
  }

  /** The tail of a target that passes the checks has no parent segment. */
  lemma LegalTailHasNoParents(target: string)
    requires LegalTarget(target)
    ensures Tail(target)[0] == '/' && ".." !in Segments(Tail(target)[1..])
  {
    hide Segments;
    var rest := target[1..];
    assert !Contains(rest, "..");
    NoParentSegment(rest);
    if target[|target| - 1] == '/' {
      if rest == "" {
        IndexHasNoParents();
        assert Tail(target)[1..] == "index.html";
      } else {
        var dir := rest[..|rest| - 1];
        assert rest == dir + "/" + "";
        AppendIndex(dir);
        assert Tail(target)[1..] == dir + "/" + "index.html";
      }
    }
  }

  lemma {:induction false} SlashFreeIsOnePart(s: string)
    requires '/' !in s
    ensures Segments(s) == [s]
  {
    if s != "" {
      SlashFreeIsOnePart(s[1..]);
      assert s == [s[0]] + s[1..];
    }
  }

  lemma IndexHasNoParents()
    ensures ".." !in Segments("index.html")
  {
    SlashFreeIsOnePart("index.html");
  }

  /**
    Every path the handler builds from a legal target stays inside the document
    root. From any directory, the tail after its first slash leads only down.
   */
  lemma BuiltPathStaysInside(docRoot: string, target: string)
    requires LegalTarget(target)
    ensures StaysInside(StripTrailingSlash(docRoot), FilePath(docRoot, target))
    ensures Tail(target)[0] == '/' && NeverLeaves(Segments(Tail(target)[1..]))
  {
    hide Segments, StaysInside, NeverLeaves, Contains;
    LegalTailHasNoParents(target);
    var root, rest := StripTrailingSlash(docRoot), Tail(target)[1..];
    InsideWithoutParents(root, rest);
    NeverLeavesWithoutParents(Segments(rest));
    assert Tail(target) == "/" + rest;
    assert FilePath(docRoot, target) == root + "/" + rest;
  }

  /** Nothing outside the document root can influence a response. */
  lemma OnlyFilesInsideMatter(docRoot: string, r: Request, a: Disk, b: Disk)
    requires forall path :: StaysInside(StripTrailingSlash(docRoot), path) ==> Open(a, path) == Open(b, path)
    ensures HandleRequest(docRoot, r, a) == HandleRequest(docRoot, r, b)
  {
    if LegalTarget(r.target) {
      BuiltPathStaysInside(docRoot, r.target);
    }
  }
}
