/**
 Go's path.Join and path.Clean, on the level of slash-separated segments.

 A path is split into segments, which are pushed on a stack one by one; the stack is always `Reduced`, and
 joining it again gives the clean path.  Joining a directory and a key appends the key to what stands
 before it (`JoinIsPrefix`), so that different keys of a directory have different paths.
 */

module Paths {
  import opened Strings

  /** One segment of path.Clean: "" and "." vanish, ".." takes back the segment before it. */
  function Push(rooted: bool, stack: seq<string>, part: string): seq<string> {
    if part == "" || part == "." then stack
    else if part == ".." then
      if stack != [] && stack[|stack| - 1] != ".." then stack[..|stack| - 1]
      else if rooted then stack
      else stack + [part]
    else stack + [part]
  }

  function PushAll(rooted: bool, parts: seq<string>): seq<string> {
    if parts == [] then [] else Push(rooted, PushAll(rooted, parts[..|parts| - 1]), parts[|parts| - 1])
  }

  predicate Rooted(p: string) {
    p != "" && p[0] == '/'
  }

  function Render(rooted: bool, stack: seq<string>): string {
    if rooted then "/" + Join(stack, '/')
    else if stack == [] then "."
    else Join(stack, '/')
  }

  /** path.Clean */
  function Clean(p: string): string {
    Render(Rooted(p), PushAll(Rooted(p), Split(p, '/')))
  }

  /** path.Join of two elements: empty ones are skipped. */
  function JoinPath(dir: string, file: string): string {
    if dir == "" && file == "" then ""
    else if file == "" then Clean(dir)
    else if dir == "" then Clean(file)
    else Clean(dir + "/" + file)
  }

  /** A key the API server admits in a ConfigMap or Secret. */
  predicate ValidKey(k: string) {
    k != "" && '/' !in k && k != "." && k != ".."
  }

  /** What stands before the file name. */
  function Prefix(dir: string): string {
    Before(Rooted(dir), PushAll(Rooted(dir), Split(dir, '/')))
  }

  function Before(rooted: bool, stack: seq<string>): string {
    (if rooted then "/" else "") + (if stack == [] then "" else Join(stack, '/') + "/")
  }

  lemma {:induction false} JoinSnoc(parts: seq<string>, last: string, c: char)
    ensures Join(parts + [last], c) == if parts == [] then last else Join(parts, c) + [c] + last
  {
    if |parts| > 0 {
      JoinSnoc(parts[1..], last, c);
      assert (parts + [last])[1..] == parts[1..] + [last];
    }
  }

  lemma {:induction false} PushAllSnoc(rooted: bool, parts: seq<string>, last: string)
    ensures PushAll(rooted, parts + [last]) == Push(rooted, PushAll(rooted, parts), last)
  {
    assert (parts + [last])[..|parts|] == parts;
  }

  lemma {:induction false} PushKey(rooted: bool, parts: seq<string>, file: string)
    requires ValidKey(file)
    ensures PushAll(rooted, parts + [file]) == PushAll(rooted, parts) + [file]
  {
    PushAllSnoc(rooted, parts, file);
  }

  lemma {:induction false} RenderSnoc(rooted: bool, stack: seq<string>, file: string)
    ensures Render(rooted, stack + [file]) == Before(rooted, stack) + file
  {
    JoinSnoc(stack, file, '/');
  }

  lemma SplitPath(dir: string, file: string)
    requires '/' !in file
    ensures Split(dir + "/" + file, '/') == Split(dir, '/') + [file]
  {
    SplitAt(dir, '/', file);
    SplitPlain(file, '/');
    assert dir + ['/'] + file == dir + "/" + file;
  }

  /** Joining an admissible key only appends it. */
  lemma {:induction false} JoinIsPrefix(dir: string, file: string)
    requires dir != "" && ValidKey(file)
    ensures JoinPath(dir, file) == Prefix(dir) + file
  {
    var rooted, parts := Rooted(dir), Split(dir, '/');
    assert Rooted(dir + "/" + file) == rooted;
    calc {
      JoinPath(dir, file);
      Render(rooted, PushAll(rooted, Split(dir + "/" + file, '/')));
      { SplitPath(dir, file); }
      Render(rooted, PushAll(rooted, parts + [file]));
      { PushKey(rooted, parts, file); }
      Render(rooted, PushAll(rooted, parts) + [file]);
      { RenderSnoc(rooted, PushAll(rooted, parts), file); }
      Prefix(dir) + file;
    }
  }

  /** So different keys of one reference are mounted at different paths. */
  lemma JoinInjective(dir: string, f: string, g: string)
    requires dir != "" && ValidKey(f) && ValidKey(g) && JoinPath(dir, f) == JoinPath(dir, g)
    ensures f == g
  {
    JoinIsPrefix(dir, f);
    JoinIsPrefix(dir, g);
    var n := |Prefix(dir)|;
    assert (Prefix(dir) + f)[n..] == f && (Prefix(dir) + g)[n..] == g;
  }

  /** A clean rooted directory stands before its files as it is written. */
  lemma PrefixOfClean(dir: string)
    requires Rooted(dir) && Clean(dir) == dir && dir != "/"
    ensures Prefix(dir) == dir + "/"
  {
    var stack := PushAll(true, Split(dir, '/'));
    assert stack == [] <==> |stack| == 0;
  }

  /** No empty segments and no "."; ".." only at the front, and not after the root. */
  predicate Reduced(rooted: bool, stack: seq<string>) {
    && (forall i :: 0 <= i < |stack| ==>
          stack[i] != "" && '/' !in stack[i] && stack[i] != "." && (stack[i] == ".." ==> !rooted))
    && (forall i, j :: 0 <= i < j < |stack| && stack[j] == ".." ==> stack[i] == "..")
  }

  lemma {:induction false} PushAllReduced(rooted: bool, parts: seq<string>)
    requires forall p :: p in parts ==> '/' !in p
    ensures Reduced(rooted, PushAll(rooted, parts))
    decreases |parts|
  {
    if parts != [] {
      PushAllReduced(rooted, parts[..|parts| - 1]);
      assert parts[|parts| - 1] in parts;
    }
  }

  lemma PushLast(rooted: bool, stack: seq<string>)
    requires stack != [] && Reduced(rooted, stack)
    ensures Reduced(rooted, stack[..|stack| - 1]) && Push(rooted, stack[..|stack| - 1], stack[|stack| - 1]) == stack
  {
    var n := |stack| - 1;
    assert n > 0 ==> stack[..n][n - 1] == stack[n - 1];
    assert stack[..n] + [stack[n]] == stack;
  }

  /** A reduced stack is pushed as it is; an empty segment before it, left by the root, does no harm. */
  lemma {:induction false} PushReduced(rooted: bool, lead: seq<string>, stack: seq<string>)
    requires Reduced(rooted, stack) && (lead == [] || lead == [""])
    ensures PushAll(rooted, lead + stack) == stack
    decreases |stack|
  {
    if stack == [] {
      assert lead + stack == lead;
      if lead == [""] { PushAllSnoc(rooted, [], ""); }
    } else {
      var n := |stack| - 1;
      PushLast(rooted, stack);
      PushReduced(rooted, lead, stack[..n]);
      PushAllSnoc(rooted, lead + stack[..n], stack[n]);
      assert lead + stack == lead + stack[..n] + [stack[n]];
    }
  }

  lemma {:induction false} CleanRendered(rooted: bool, stack: seq<string>)
    requires Reduced(rooted, stack)
    ensures Clean(Render(rooted, stack)) == Render(rooted, stack)
  {
    var p := Render(rooted, stack);
    if stack != [] { SplitOfJoin(stack, '/'); }
    if rooted {
      assert p == "" + ['/'] + Join(stack, '/');
      SplitAt("", '/', Join(stack, '/'));
      SplitPlain("", '/');
      PushReduced(true, [""], stack);
      if stack == [] { PushTwoEmpty(); }
    } else if stack == [] {
      SplitPlain(".", '/');
      assert ["."][..0] == [];
    } else {
      assert p[0] == stack[0][0];
      PushReduced(false, [], stack);
      assert [] + stack == stack;
    }
  }

  lemma PushTwoEmpty()
    ensures PushAll(true, [""] + [""]) == []
  {
    PushAllSnoc(true, [], "");
    PushAllSnoc(true, [""], "");
  }

  /** Cleaning twice is cleaning once. */
  lemma CleanIdempotent(p: string)
    ensures Clean(Clean(p)) == Clean(p)
  {
    SplitParts(p, '/');
    PushAllReduced(Rooted(p), Split(p, '/'));
    CleanRendered(Rooted(p), PushAll(Rooted(p), Split(p, '/')));
  }

  /** ".." undoes a name. */
  lemma {:induction false} UpUndoesName(dir: string, name: string)
    requires dir != "" && ValidKey(name)
    ensures Clean(dir + "/" + name + "/..") == Clean(dir)
  {
    var rooted, parts, down := Rooted(dir), Split(dir, '/'), dir + "/" + name;
    assert down + "/.." == down + "/" + ".." && Rooted(down + "/..") == rooted;
    SplitPath(dir, name);
    SplitPath(down, "..");
    PushKey(rooted, parts, name);
    PushAllSnoc(rooted, parts + [name], "..");
    assert (PushAll(rooted, parts) + [name])[..|PushAll(rooted, parts)|] == PushAll(rooted, parts);
  }

  lemma {:induction false} UpAtRoot()
    ensures Clean("/..") == "/"
  {
    SplitAt("", '/', "..");
    SplitPlain("", '/');
    SplitPlain("..", '/');
    assert "" + ['/'] + ".." == "/..";
    PushAllSnoc(true, [], "");
    PushAllSnoc(true, [""], "..");
  }

  /** A slash and names with slashes between them is such a directory. */
  lemma {:induction false} NamesAreClean(names: seq<string>)
    requires names != [] && forall n :: 0 <= n < |names| ==> ValidKey(names[n])
    ensures Clean("/" + Join(names, '/')) == "/" + Join(names, '/')
  {
    CleanRendered(true, names);
  }

  lemma {:induction false} ThreeNamesAreClean(a: string, b: string, c: string)
    requires ValidKey(a) && ValidKey(b) && ValidKey(c)
    ensures Clean("/" + a + "/" + b + "/" + c) == "/" + a + "/" + b + "/" + c
  {
    var names, dir := [a, b, c], "/" + a + "/" + b + "/" + c;
    assert names[1..] == [b, c] && [b, c][1..] == [c];
    assert Join([b, c], '/') == b + ['/'] + c;
    assert "/" + Join(names, '/') == dir;
    NamesAreClean(names);
  }

  /** So whatever the directories, equal paths name the same key. */
  lemma JoinSameFile(dir: string, f: string, other: string, g: string)
    requires dir != "" && other != "" && ValidKey(f) && ValidKey(g) && JoinPath(dir, f) == JoinPath(other, g)
    ensures f == g
  {
    JoinIsPrefix(dir, f);
    JoinIsPrefix(other, g);
    LaterCut(Prefix(dir), f, Prefix(other), g);
    LaterCut(Prefix(other), g, Prefix(dir), f);
    assert (Prefix(dir) + f)[|Prefix(dir)|..] == f && (Prefix(other) + g)[|Prefix(other)|..] == g;
  }

  /** Where one way to cut a string in two cuts later, what stands before that cut is in the other's tail. */
  lemma LaterCut(p: string, f: string, q: string, g: string)
    requires p + f == q + g
    ensures |q| < |p| ==> p[|p| - 1] in g
  {
    if |q| < |p| {
      assert (p + f)[|p| - 1] == p[|p| - 1] && (q + g)[|p| - 1] == g[|p| - 1 - |q|];
    }
  }

  /** Keys the server refuses would collide: "./file" is mounted where "file" is, in every directory. */
  lemma DotKeyCollides(dir: string, file: string)
    requires dir != "" && ValidKey(file)
    ensures JoinPath(dir, "./" + file) == JoinPath(dir, file)
  {
    var rooted, parts := Rooted(dir), Split(dir, '/');
    SplitPath(dir, ".");
    SplitPath(dir + "/.", file);
    assert dir + "/" + "." == dir + "/." && dir + "/." + "/" + file == dir + "/" + ("./" + file);
    assert Split(dir + "/" + ("./" + file), '/') == parts + ["."] + [file];
    PushKey(rooted, parts + ["."], file);
    assert (parts + ["."])[..|parts|] == parts;
    assert PushAll(rooted, parts + ["."]) == PushAll(rooted, parts);
    SplitPath(dir, file);
    PushKey(rooted, parts, file);
    assert Rooted(dir + "/" + ("./" + file)) == rooted == Rooted(dir + "/" + file);
  }
}
