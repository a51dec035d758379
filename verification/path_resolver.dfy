/** Resolution of a path written inside a map, tileset or template file (relative
    to that file, `..` walking up) into a path relative to the project root.
    The loaders resolve with the resolver as written: their methods call
    `LocalPathToProjectPath`, and the functions that specify them use its closed
    form `AsWrittenProjectPath`, which puts the leftover directories in reverse.
    `ProjectPath` is the corrected resolver, the same walk with the leftover
    directories kept in order; it states the intended behaviour beside the
    as-written one and is not used by the loaders. */
module PathResolver {
  import opened Strings

  /** The source directories still on the stack, and the relative remainder built so far. */
  datatype Cursor = Cursor(stack: seq<string>, remainder: string)

  /** `Vec::pop`: drops the last entry; an empty stack stays empty. */
  function Pop(stack: seq<string>): (r: seq<string>)
    ensures |r| == if |stack| == 0 then 0 else |stack| - 1
    ensures r == stack[..|r|]
  {
    if |stack| == 0 then stack else stack[..|stack| - 1]
  }

  /** How a segment other than `..` is appended: verbatim when it contains a dot, else with a slash. */
  function Render(segment: string): string
  {
    if '.' in segment then segment else segment + "/"
  }

  /** One segment of the relative path. */
  function Step(c: Cursor, segment: string): Cursor
  {
    if segment == ".." then Cursor(Pop(c.stack), c.remainder)
    else Cursor(c.stack, c.remainder + Render(segment))
  }

  /** The segments, left to right. */
  function Walk(c: Cursor, segments: seq<string>): Cursor
  {
    if segments == [] then c
    else Step(Walk(c, segments[..|segments| - 1]), segments[|segments| - 1])
  }

  /** The directories of the referencing file: its path split on `/`, file name dropped. */
  function SourceDirs(localPath: string): seq<string>
  {
    Pop(Split(localPath, '/'))
  }

  /** `dir/` for each directory, in the order given. */
  function DirPrefix(dirs: seq<string>): string
  {
    if dirs == [] then "" else dirs[0] + "/" + DirPrefix(dirs[1..])
  }

  function Reverse(s: seq<string>): (r: seq<string>)
    ensures |r| == |s|
  {
    if s == [] then [] else [s[|s| - 1]] + Reverse(s[..|s| - 1])
  }

  /** The final loop as written: each leftover directory in turn is put in front of the result. */
  function PrependEach(stack: seq<string>, path: string): string
  {
    if stack == [] then path
    else stack[|stack| - 1] + "/" + PrependEach(stack[..|stack| - 1], path)
  }

  /** What the source's resolver computes. */
  function AsWrittenProjectPath(path: string, localPath: string): string
  {
    var c := Walk(Cursor(SourceDirs(localPath), ""), Split(path, '/'));
    PrependEach(c.stack, c.remainder)
  }

  /** The resolver with the leftover directories kept in order (see `ProjectPathResolvesRelative`). */
  function ProjectPath(path: string, localPath: string): string
  {
    var c := Walk(Cursor(SourceDirs(localPath), ""), Split(path, '/'));
    DirPrefix(c.stack) + c.remainder
  }

  /** `local_path_to_project_path`, step by step: fill the stack from the source path,
      drop the file name, walk the relative segments, then prepend what is left. */
  method LocalPathToProjectPath(path: string, localPath: string) returns (r: string)
    ensures r == AsWrittenProjectPath(path, localPath)
  {
    var parts: seq<string> := [];
    var localParts := Split(localPath, '/');
    for i := 0 to |localParts|
      invariant parts == localParts[..i]
    {
      parts := parts + [localParts[i]];
    }
    assert parts == localParts;
    // remove the file name
    if |parts| > 0 {
      parts := parts[..|parts| - 1];
    }

    ghost var start := Cursor(parts, "");
    var newPath := "";
    var segments := Split(path, '/');
    for j := 0 to |segments|
      invariant Cursor(parts, newPath) == Walk(start, segments[..j])
    {
      assert segments[..j + 1][..j] == segments[..j];
      var part := segments[j];
      if part == ".." {
        if |parts| > 0 {
          parts := parts[..|parts| - 1];
        }
        continue;
      }
      if '.' in part {
        newPath := newPath + part;
      } else {
        newPath := newPath + (part + "/");
      }
    }
    assert segments[..|segments|] == segments;

    ghost var remainder := newPath;
    for k := 0 to |parts|
      invariant newPath == PrependEach(parts[..k], remainder)
    {
      assert parts[..k + 1][..k] == parts[..k];
      newPath := parts[k] + "/" + newPath;
    }
    assert parts[..|parts|] == parts;
    r := newPath;
  }

  // ------------------------------------------------------------ the walk in closed form

  /** The number of `..` segments. */
  function Ups(segments: seq<string>): nat
  {
    if segments == [] then 0
    else Ups(segments[..|segments| - 1]) + (if segments[|segments| - 1] == ".." then 1 else 0)
  }

  /** What one segment contributes to the remainder: nothing for `..`. */
  function Piece(segment: string): string
  {
    if segment == ".." then "" else Render(segment)
  }

  /** The rendered segments other than `..`, in order. */
  function Rendered(segments: seq<string>): string
  {
    if segments == [] then ""
    else Rendered(segments[..|segments| - 1]) + Piece(segments[|segments| - 1])
  }

  /** `n` pops from `stack`: the stack shortened by `n`, never below empty. */
  function Truncated(stack: seq<string>, n: nat): seq<string>
  {
    stack[..if n >= |stack| then 0 else |stack| - n]
  }

  /** The two halves of the walk do not interact: each `..` drops exactly one trailing
      source directory (nothing once the stack is empty) and never touches the remainder;
      every other segment is appended to the remainder, in order, and leaves the stack alone. */
  lemma {:induction false} WalkClosedForm(c: Cursor, segments: seq<string>)
    ensures Walk(c, segments) == Cursor(Truncated(c.stack, Ups(segments)), c.remainder + Rendered(segments))
  {
    if segments != [] {
      var init := segments[..|segments| - 1];
      WalkClosedForm(c, init);
      var stack := Truncated(c.stack, Ups(init));
      assert Pop(stack) == Truncated(c.stack, Ups(init) + 1);
      assert c.remainder + Rendered(init) + Render(segments[|segments| - 1]) ==
        c.remainder + (Rendered(init) + Render(segments[|segments| - 1]));
    } else {
      assert c.remainder + "" == c.remainder;
    }
  }

  lemma {:induction false} PrependEachReverses(stack: seq<string>, path: string)
    ensures PrependEach(stack, path) == DirPrefix(Reverse(stack)) + path
  {
    if stack != [] {
      var last := stack[|stack| - 1];
      PrependEachReverses(stack[..|stack| - 1], path);
      var rev := Reverse(stack);
      assert rev[0] == last && rev[1..] == Reverse(stack[..|stack| - 1]);
    }
  }

  /** Both resolvers in closed form: the source directories shortened by one per `..`,
      then the rendered remainder; the source's resolver emits the directories in reverse. */
  lemma ResolutionClosedForm(path: string, localPath: string, dirs: seq<string>, segments: seq<string>)
    requires segments == Split(path, '/')
    requires dirs == Truncated(SourceDirs(localPath), Ups(segments))
    ensures ProjectPath(path, localPath) == DirPrefix(dirs) + Rendered(segments)
    ensures AsWrittenProjectPath(path, localPath) == DirPrefix(Reverse(dirs)) + Rendered(segments)
  {
    var start := Cursor(SourceDirs(localPath), "");
    WalkClosedForm(start, segments);
    assert "" + Rendered(segments) == Rendered(segments);
    var c := Walk(start, segments);
    assert c.stack == dirs && c.remainder == Rendered(segments);
    PrependEachReverses(c.stack, c.remainder);
  }

  /** With at most one directory left over, the two resolvers agree: this is why the
      example `../../sprites.tsx` from `res/maps/tutorial/0.tmx` comes out right. */
  lemma AsWrittenAgreesWithOneDirectoryLeft(path: string, localPath: string)
    requires |Truncated(SourceDirs(localPath), Ups(Split(path, '/')))| <= 1
    ensures AsWrittenProjectPath(path, localPath) == ProjectPath(path, localPath)
  {
    var dirs := Truncated(SourceDirs(localPath), Ups(Split(path, '/')));
    ResolutionClosedForm(path, localPath, dirs, Split(path, '/'));
    assert Reverse(dirs) == dirs;
  }

  // ------------------------------------------------------------ relative paths

  function Repeat(segment: string, n: nat): (r: seq<string>)
    ensures |r| == n && forall k :: 0 <= k < n ==> r[k] == segment
  {
    if n == 0 then [] else Repeat(segment, n - 1) + [segment]
  }

  lemma {:induction false} DirPrefixSnoc(dirs: seq<string>, d: string)
    ensures DirPrefix(dirs + [d]) == DirPrefix(dirs) + d + "/"
  {
    if dirs != [] {
      assert (dirs + [d])[1..] == dirs[1..] + [d];
      DirPrefixSnoc(dirs[1..], d);
    }
  }

  lemma {:induction false} JoinIsDirPrefix(dirs: seq<string>, file: string)
    ensures Join(dirs + [file], '/') == DirPrefix(dirs) + file
  {
    if dirs != [] {
      assert (dirs + [file])[1..] == dirs[1..] + [file];
      JoinIsDirPrefix(dirs[1..], file);
    } else {
      assert dirs + [file] == [file];
    }
  }

  /** Directory segments (no dot) render as `dir/` each. */
  lemma {:induction false} RenderedDirectories(segments: seq<string>)
    requires forall k :: 0 <= k < |segments| ==> '.' !in segments[k]
    ensures Rendered(segments) == DirPrefix(segments) && Ups(segments) == 0
  {
    if segments != [] {
      var init := segments[..|segments| - 1];
      var last := segments[|segments| - 1];
      assert last != "..";
      RenderedDirectories(init);
      DirPrefixSnoc(init, last);
      assert init + [last] == segments;
      assert Piece(last) == last + "/";
    }
  }

  lemma RenderedSnoc(s: seq<string>, x: string)
    ensures Rendered(s + [x]) == Rendered(s) + Piece(x)
  {
    var t := s + [x];
    assert t[..|t| - 1] == s && t[|t| - 1] == x;
  }

  lemma {:induction false} RenderedAppend(a: seq<string>, b: seq<string>)
    ensures Rendered(a + b) == Rendered(a) + Rendered(b)
  {
    if |b| == 0 {
      RenderedAppendNothing(a, b);
    } else {
      var init := b[..|b| - 1];
      var last := b[|b| - 1];
      assert b == init + [last];
      RenderedAppend(a, init);
      RenderedAppendStep(a, init, last);
    }
  }

  lemma RenderedAppendNothing(a: seq<string>, b: seq<string>)
    requires |b| == 0
    ensures Rendered(a + b) == Rendered(a) + Rendered(b)
  {
    assert a + b == a;
    assert Rendered(a) + Rendered(b) == Rendered(a) + "";
  }

  lemma RenderedAppendStep(a: seq<string>, init: seq<string>, last: string)
    requires Rendered(a + init) == Rendered(a) + Rendered(init)
    ensures Rendered(a + (init + [last])) == Rendered(a) + Rendered(init + [last])
  {
    ConcatAssociates(a, init, [last]);
    RenderedSnoc(a + init, last);
    RenderedSnoc(init, last);
    ConcatAssociates(Rendered(a), Rendered(init), Piece(last));
  }

  lemma ConcatAssociates<T>(x: seq<T>, y: seq<T>, z: seq<T>)
    ensures (x + y) + z == x + (y + z)
  {
  }

  lemma {:induction false} UpsAppend(a: seq<string>, b: seq<string>)
    ensures Ups(a + b) == Ups(a) + Ups(b)
  {
    if |b| == 0 {
      assert a + b == a;
    } else {
      var init := b[..|b| - 1];
      var ab := a + b;
      assert ab[..|ab| - 1] == a + init && ab[|ab| - 1] == b[|b| - 1];
      UpsAppend(a, init);
    }
  }

  /** The directories of `dir/dir/file` are the `dir`s. */
  lemma SourceDirsOfPath(dirs: seq<string>, file: string)
    requires forall k :: 0 <= k < |dirs| ==> '/' !in dirs[k]
    requires '/' !in file
    ensures SourceDirs(DirPrefix(dirs) + file) == dirs
  {
    var parts := dirs + [file];
    assert forall k :: 0 <= k < |parts| ==> '/' !in parts[k] by {
      assert forall k :: 0 <= k < |dirs| ==> parts[k] == dirs[k];
      assert parts[|dirs|] == file;
    }
    JoinIsDirPrefix(dirs, file);
    SplitJoin(parts, '/');
    assert parts[..|parts| - 1] == dirs;
  }

  /** Directories then a file name render as the path joined back with slashes. */
  lemma RenderedRelativeFile(rest: seq<string>)
    requires |rest| >= 1
    requires forall k :: 0 <= k < |rest| - 1 ==> '.' !in rest[k]
    requires '.' in rest[|rest| - 1] && rest[|rest| - 1] != ".."
    ensures Rendered(rest) == Join(rest, '/') && Ups(rest) == 0
  {
    var init := rest[..|rest| - 1];
    var last := rest[|rest| - 1];
    assert rest == init + [last];
    RenderedDirectories(init);
    assert Piece(last) == last;
    JoinIsDirPrefix(init, last);
  }

  /** Leading `..` segments count as walks up and contribute no text. */
  lemma RenderedAfterUps(ups: nat, rest: seq<string>)
    ensures Rendered(Repeat("..", ups) + rest) == Rendered(rest)
    ensures Ups(Repeat("..", ups) + rest) == ups + Ups(rest)
  {
    RenderedAppend(Repeat("..", ups), rest);
    UpsAppend(Repeat("..", ups), rest);
    RenderedOfUps(ups);
    assert "" + Rendered(rest) == Rendered(rest);
  }

  /** A path relative to the referencing file, `..` segments first, then directories,
      then a file name with a dot, resolves to the referencing file's directory walked
      up once per `..`, followed by the rest of the path as it was written. The source's
      resolver produces the same directories back to front. */
  lemma ProjectPathResolvesRelative(
    path: string, localPath: string, dirs: seq<string>, file: string, ups: nat, rest: seq<string>)
    requires forall k :: 0 <= k < |dirs| ==> '/' !in dirs[k]
    requires '/' !in file
    requires localPath == DirPrefix(dirs) + file
    requires ups <= |dirs|
    requires |rest| >= 1 && forall k :: 0 <= k < |rest| ==> '/' !in rest[k]
    requires forall k :: 0 <= k < |rest| - 1 ==> '.' !in rest[k]
    requires '.' in rest[|rest| - 1] && rest[|rest| - 1] != ".."
    requires path == Join(Repeat("..", ups) + rest, '/')
    ensures ProjectPath(path, localPath) == DirPrefix(dirs[..|dirs| - ups]) + Join(rest, '/')
    ensures AsWrittenProjectPath(path, localPath) == DirPrefix(Reverse(dirs[..|dirs| - ups])) + Join(rest, '/')
  {
    SourceDirsOfPath(dirs, file);
    var segments := Repeat("..", ups) + rest;
    SplitJoin(segments, '/');
    assert Split(path, '/') == segments;
    RenderedRelativeFile(rest);
    RenderedAfterUps(ups, rest);
    assert Ups(segments) == ups;
    assert Truncated(dirs, ups) == dirs[..|dirs| - ups];
    ResolutionClosedForm(path, localPath, dirs[..|dirs| - ups], segments);
  }

  lemma {:induction false} RenderedOfUps(n: nat)
    ensures Rendered(Repeat("..", n)) == "" && Ups(Repeat("..", n)) == n
  {
    if n > 0 {
      RenderedOfUps(n - 1);
      assert Repeat("..", n)[..n - 1] == Repeat("..", n - 1);
    }
  }

  // ------------------------------------------------------------ examples

  lemma ThreeDirectories(a: string, b: string, c: string)
    ensures Reverse([a, b, c]) == [c, b, a]
    ensures DirPrefix([a, b, c]) == a + "/" + b + "/" + c + "/"
  {
    assert [a, b, c][..2] == [a, b] && [a, b][..1] == [a] && [a][..0] == [];
    assert Reverse([a]) == [a];
    assert Reverse([a, b]) == [b] + [a];
    assert Reverse([a, b, c]) == [c] + [b, a];
    assert [a, b, c][1..] == [b, c] && [b, c][1..] == [c] && [c][1..] == [];
    assert DirPrefix([c]) == c + "/" + "";
    assert DirPrefix([b, c]) == b + "/" + (c + "/");
    assert DirPrefix([a, b, c]) == a + "/" + (b + "/" + (c + "/"));
  }

  lemma SampleSourcePath()
    ensures DirPrefix(["res", "maps", "tutorial"]) == "res/maps/tutorial/"
    ensures "res/maps/tutorial/0.tmx" == DirPrefix(["res", "maps", "tutorial"]) + "0.tmx"
  {
    ThreeDirectories("res", "maps", "tutorial");
  }

  lemma DocCommentSegments(path: string, segments: seq<string>)
    requires path == "../../sprites.tsx"
    requires segments == ["..", "..", "sprites.tsx"]
    ensures path == Join(segments, '/')
    ensures segments == Repeat("..", 2) + ["sprites.tsx"]
  {
    var tail := segments[1..];
    assert tail == ["..", "sprites.tsx"] && tail[1..] == ["sprites.tsx"];
    assert Join(tail[1..], '/') == "sprites.tsx";
    assert Join(tail, '/') == "../sprites.tsx";
    assert Join(segments, '/') == "../" + "../sprites.tsx";
  }

  lemma DocCommentNames()
    ensures '/' !in "0.tmx" && '/' !in "sprites.tsx"
    ensures '.' in "sprites.tsx" && "sprites.tsx" != ".."
  {
    assert "sprites.tsx"[7] == '.';
  }

  lemma DocCommentLeftover(dirs: seq<string>)
    requires dirs == ["res", "maps", "tutorial"]
    ensures DirPrefix(dirs[..|dirs| - 2]) + "sprites.tsx" == "res/sprites.tsx"
    ensures DirPrefix(Reverse(dirs[..|dirs| - 2])) + "sprites.tsx" == "res/sprites.tsx"
    ensures forall k :: 0 <= k < |dirs| ==> '/' !in dirs[k]
  {
    var left := dirs[..|dirs| - 2];
    assert left == ["res"];
    assert Reverse(left) == left;
    assert DirPrefix(["res"]) == "res/" by {
      assert ["res"][1..] == [];
    }
  }

  /** The example in the source's comment: `../../sprites.tsx` from `res/maps/tutorial/0.tmx`
      is `res/sprites.tsx`, for both resolvers. */
  lemma DocCommentExample(path: string, localPath: string)
    requires path == "../../sprites.tsx" && localPath == "res/maps/tutorial/0.tmx"
    ensures AsWrittenProjectPath(path, localPath) == "res/sprites.tsx"
    ensures ProjectPath(path, localPath) == "res/sprites.tsx"
  {
    var dirs := ["res", "maps", "tutorial"];
    var rest := ["sprites.tsx"];
    var left := dirs[..|dirs| - 2];
    assert ProjectPath(path, localPath) == DirPrefix(left) + Join(rest, '/') &&
      AsWrittenProjectPath(path, localPath) == DirPrefix(Reverse(left)) + Join(rest, '/') by {
      SampleSourcePath();
      DocCommentSegments(path, ["..", "..", "sprites.tsx"]);
      DocCommentLeftover(dirs);
      DocCommentNames();
      ProjectPathResolvesRelative(path, localPath, dirs, "0.tmx", 2, rest);
    }
    assert Join(rest, '/') == "sprites.tsx" by {
      JoinSingle("sprites.tsx");
    }
    DocCommentLeftover(dirs);
  }

  lemma JoinSingle(name: string)
    ensures Join([name], '/') == name
    ensures Join(Repeat("..", 0) + [name], '/') == name
  {
    assert Repeat("..", 0) + [name] == [name];
  }

  /** A file in the referencing file's own directory. */
  lemma SiblingResolution(dirs: seq<string>, file: string, name: string)
    requires forall k :: 0 <= k < |dirs| ==> '/' !in dirs[k]
    requires '/' !in file && '/' !in name
    requires '.' in name && name != ".."
    ensures ProjectPath(name, DirPrefix(dirs) + file) == DirPrefix(dirs) + name
    ensures AsWrittenProjectPath(name, DirPrefix(dirs) + file) == DirPrefix(Reverse(dirs)) + name
  {
    JoinSingle(name);
    ProjectPathResolvesRelative(name, DirPrefix(dirs) + file, dirs, file, 0, [name]);
    assert dirs[..|dirs| - 0] == dirs;
  }

  lemma SampleForwardOrder(name: string)
    requires name == "sprites.tsx"
    ensures DirPrefix(["res", "maps", "tutorial"]) + name == "res/maps/tutorial/sprites.tsx"
  {
    SampleSourcePath();
  }

  lemma SampleReverseOrder(name: string)
    requires name == "sprites.tsx"
    ensures DirPrefix(Reverse(["res", "maps", "tutorial"])) + name == "tutorial/maps/res/sprites.tsx"
  {
    ThreeDirectories("res", "maps", "tutorial");
    ThreeDirectories("tutorial", "maps", "res");
  }

  /** `name` next to `res/maps/tutorial/0.tmx`, through both resolvers. */
  lemma SampleSibling(name: string, localPath: string)
    requires name == "sprites.tsx" && localPath == "res/maps/tutorial/0.tmx"
    ensures ProjectPath(name, localPath) == DirPrefix(["res", "maps", "tutorial"]) + name
    ensures AsWrittenProjectPath(name, localPath) == DirPrefix(Reverse(["res", "maps", "tutorial"])) + name
  {
    SampleSourcePath();
    SampleNames(name);
    SiblingResolution(["res", "maps", "tutorial"], "0.tmx", name);
  }

  lemma SampleNames(name: string)
    requires name == "sprites.tsx"
    ensures '/' !in "0.tmx" && '/' !in name && '.' in name && name != ".."
    ensures forall k :: 0 <= k < 3 ==> '/' !in ["res", "maps", "tutorial"][k]
  {
    assert name[7] == '.';
  }

  /** A file next to the referencing one, two directories deep: the source's resolver
      emits the directories back to front. */
  lemma AsWrittenReversesDirectories(path: string, localPath: string)
    requires path == "sprites.tsx" && localPath == "res/maps/tutorial/0.tmx"
    ensures AsWrittenProjectPath(path, localPath) == "tutorial/maps/res/sprites.tsx"
  {
    SampleSibling(path, localPath);
    SampleReverseOrder(path);
  }

  /** The same file through the corrected resolver: the directories stay in order. */
  lemma ProjectPathKeepsDirectoryOrder(path: string, localPath: string)
    requires path == "sprites.tsx" && localPath == "res/maps/tutorial/0.tmx"
    ensures ProjectPath(path, localPath) == "res/maps/tutorial/sprites.tsx"
  {
    SampleSibling(path, localPath);
    SampleForwardOrder(path);
  }
}
