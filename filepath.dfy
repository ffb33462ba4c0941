/**
 * The part of Go's `path/filepath` (on '/'-separated paths) and `strings`
 * that the worker relies on: `Base`, `Ext`, `Clean`, `Join`, `HasPrefix`,
 * `Contains` and an ASCII-only `ToLower`.
 */
module FilePath {

  // ---------------------------------------------------------------------
  // Strings

  predicate HasPrefix(s: string, prefix: string) {
    |prefix| <= |s| && s[..|prefix|] == prefix
  }

  /** `sub` occurs in `s` starting at index `i`. */
  predicate OccursAt(s: string, sub: string, i: int) {
    0 <= i <= |s| - |sub| && s[i..i + |sub|] == sub
  }

  /** `strings.Contains(s, sub)`. */
  predicate Contains(s: string, sub: string) {
    exists i :: 0 <= i <= |s| - |sub| && OccursAt(s, sub, i)
  }

  function LowerChar(c: char): char {
    if 'A' <= c <= 'Z' then (c as int + 32) as char else c
  }

  /** `strings.ToLower`, restricted to ASCII letters. */
  function Lower(s: string): (r: string)
    ensures |r| == |s|
    ensures forall i :: 0 <= i < |s| ==> r[i] == LowerChar(s[i])
  {
    seq(|s|, i requires 0 <= i < |s| => LowerChar(s[i]))
  }

  // ---------------------------------------------------------------------
  // Path elements

  /** The '/'-separated elements of `s`, empty ones included ("a//b" has three). */
  function Split(s: string): (r: seq<string>)
    ensures |r| >= 1
    ensures forall i :: 0 <= i < |r| ==> '/' !in r[i]
  {
    if |s| == 0 then [""]
    else
      var rest := Split(s[1..]);
      if s[0] == '/' then [""] + rest
      else [[s[0]] + rest[0]] + rest[1..]
  }

  /** Elements glued back with '/'. */
  function JoinElems(es: seq<string>): string {
    if |es| == 0 then ""
    else if |es| == 1 then es[0]
    else es[0] + "/" + JoinElems(es[1..])
  }

  /** Lexical resolution as `filepath.Clean` does it: "" and "." vanish, ".." pops
      the previous element, and a ".." that cannot pop is kept (relative) or
      dropped (rooted). */
  function Resolve(acc: seq<string>, es: seq<string>, rooted: bool): seq<string>
    decreases |es|
  {
    if es == [] then acc
    else
      var e := es[0];
      var next :=
        if e == "" || e == "." then acc
        else if e == ".." then
          (if |acc| > 0 && acc[|acc| - 1] != ".." then acc[..|acc| - 1]
           else if rooted then acc
           else acc + [".."])
        else acc + [e];
      Resolve(next, es[1..], rooted)
  }

  /** `filepath.Clean`. */
  function Clean(p: string): (r: string)
    ensures r != ""
  {
    if p == "" then "."
    else
      var rooted := p[0] == '/';
      var body := JoinElems(Resolve([], Split(p), rooted));
      if rooted then "/" + body
      else if body == "" then "."
      else body
  }

  /** `filepath.Join(a, b)`: the non-empty tail of the arguments, joined with '/'
      and cleaned. */
  function Join(a: string, b: string): string {
    if a != "" then Clean(a + "/" + b)
    else if b != "" then Clean(b)
    else ""
  }

  /** A path element that `Clean` keeps as it is. */
  predicate Plain(e: string) {
    e != "" && e != "." && e != ".." && '/' !in e
  }

  /** What `Clean` keeps of elements that hold no "..". */
  function Kept(es: seq<string>): seq<string> {
    if es == [] then []
    else (if es[0] == "" || es[0] == "." then [] else [es[0]]) + Kept(es[1..])
  }

  /** `p` is `dir` itself or lies below it. */
  predicate Under(p: string, dir: string) {
    p == dir || HasPrefix(p, dir + "/")
  }

  // ---------------------------------------------------------------------
  // Base and Ext

  function TrimTrailingSlashes(p: string): (r: string)
    ensures |r| <= |p| && r == p[..|r|]
    ensures r == "" || r[|r| - 1] != '/'
  {
    if |p| == 0 || p[|p| - 1] != '/' then p
    else TrimTrailingSlashes(p[..|p| - 1])
  }

  /** The part of `p` after its last '/'. */
  function LastElement(p: string): (r: string)
    ensures '/' !in r
    ensures |r| <= |p| && r == p[|p| - |r|..]
  {
    if |p| == 0 || p[|p| - 1] == '/' then ""
    else LastElement(p[..|p| - 1]) + [p[|p| - 1]]
  }

  /** `filepath.Base`: the last element, trailing slashes ignored; "." for the
      empty path and "/" for a path made only of slashes. */
  function Base(p: string): (r: string)
    ensures r != ""
    ensures r == "/" || '/' !in r
  {
    if p == "" then "."
    else
      var q := TrimTrailingSlashes(p);
      if q == "" then "/" else LastElement(q)
  }

  /** `filepath.Ext`: the suffix from the last '.' of the last element, or "". */
  function Ext(p: string): (r: string)
    ensures r == "" || (r[0] == '.' && '/' !in r && '.' !in r[1..])
    ensures |r| <= |p| && r == p[|p| - |r|..]
  {
    if |p| == 0 || p[|p| - 1] == '/' then ""
    else if p[|p| - 1] == '.' then "."
    else
      var e := Ext(p[..|p| - 1]);
      if e == "" then "" else e + [p[|p| - 1]]
  }

  // ---------------------------------------------------------------------
  // Lemmas about elements

  lemma {:induction false} SplitNoSlash(s: string)
    requires '/' !in s
    ensures Split(s) == [s]
  {
    if |s| > 0 {
      SplitNoSlash(s[1..]);
      assert [s[0]] + s[1..] == s;
    }
  }

  lemma {:induction false} SplitConcat(a: string, b: string)
    ensures Split(a + "/" + b) == Split(a) + Split(b)
  {
    var s := a + "/" + b;
    if |a| == 0 {
      assert s[1..] == b;
    } else {
      assert s[0] == a[0];
      assert s[1..] == a[1..] + "/" + b;
      SplitConcat(a[1..], b);
    }
  }

  /** A slash-free prefix only lengthens the first element. */
  lemma {:induction false} SplitPrefix(c: string, s: string)
    requires '/' !in c
    ensures Split(c + s) == [c + Split(s)[0]] + Split(s)[1..]
  {
    var r := Split(s);
    if c == [] {
      assert c + s == s && c + r[0] == r[0];
      assert [r[0]] + r[1..] == r;
    } else {
      SplitPrefix(c[1..], s);
      var cs := c + s;
      assert cs[0] == c[0] && cs[1..] == c[1..] + s;
      var rest := Split(c[1..] + s);
      assert Split(cs) == [[c[0]] + rest[0]] + rest[1..];
      assert rest[0] == c[1..] + r[0] && rest[1..] == r[1..];
      assert [c[0]] + (c[1..] + r[0]) == c + r[0];
    }
  }

  lemma {:induction false} SplitJoinElems(es: seq<string>)
    requires |es| >= 1
    requires forall i :: 0 <= i < |es| ==> '/' !in es[i]
    ensures Split(JoinElems(es)) == es
  {
    if |es| == 1 {
      SplitNoSlash(es[0]);
    } else {
      SplitJoinElems(es[1..]);
      SplitNoSlash(es[0]);
      SplitConcat(es[0], JoinElems(es[1..]));
      assert [es[0]] + es[1..] == es;
    }
  }

  lemma {:induction false} JoinElemsAppend(a: seq<string>, b: seq<string>)
    requires a != [] && b != []
    ensures JoinElems(a + b) == JoinElems(a) + "/" + JoinElems(b)
  {
    if |a| == 1 {
      assert (a + b)[1..] == b;
    } else {
      assert (a + b)[1..] == a[1..] + b;
      JoinElemsAppend(a[1..], b);
    }
  }

  lemma {:induction false} ResolveAppend(acc: seq<string>, a: seq<string>, b: seq<string>, rooted: bool)
    ensures Resolve(acc, a + b, rooted) == Resolve(Resolve(acc, a, rooted), b, rooted)
    decreases |a|
  {
    if a == [] {
      assert a + b == b;
    } else {
      assert (a + b)[0] == a[0];
      assert (a + b)[1..] == a[1..] + b;
      var e := a[0];
      var next :=
        if e == "" || e == "." then acc
        else if e == ".." then
          (if |acc| > 0 && acc[|acc| - 1] != ".." then acc[..|acc| - 1]
           else if rooted then acc
           else acc + [".."])
        else acc + [e];
      ResolveAppend(next, a[1..], b, rooted);
    }
  }

  lemma {:induction false} ResolvePlain(acc: seq<string>, es: seq<string>, rooted: bool)
    requires forall i :: 0 <= i < |es| ==> Plain(es[i])
    ensures Resolve(acc, es, rooted) == acc + es
    decreases |es|
  {
    if es != [] {
      ResolvePlain(acc + [es[0]], es[1..], rooted);
      assert acc + [es[0]] + es[1..] == acc + es;
    }
  }

  lemma {:induction false} ResolveNoDotDot(acc: seq<string>, es: seq<string>, rooted: bool)
    requires ".." !in es
    ensures Resolve(acc, es, rooted) == acc + Kept(es)
    decreases |es|
  {
    if es != [] {
      assert es[0] != "..";
      if es[0] == "" || es[0] == "." {
        ResolveNoDotDot(acc, es[1..], rooted);
      } else {
        ResolveNoDotDot(acc + [es[0]], es[1..], rooted);
        assert acc + [es[0]] + Kept(es[1..]) == acc + Kept(es);
      }
    }
  }

  /**
   * Joining a clean relative directory with a tail that names no ".." stays in
   * that directory: the result is the directory itself or the directory, a
   * slash and the tail's non-trivial elements.
   */
  lemma {:induction false} JoinBelow(ds: seq<string>, t: string)
    requires ds != [] && forall i :: 0 <= i < |ds| ==> Plain(ds[i])
    requires ".." !in Split(t)
    ensures var k := Kept(Split(t));
      Join(JoinElems(ds), t) == if k == [] then JoinElems(ds) else JoinElems(ds) + "/" + JoinElems(k)
    ensures Under(Join(JoinElems(ds), t), JoinElems(ds))
  {
    var d := JoinElems(ds);
    var k := Kept(Split(t));
    SplitJoinElems(ds);
    JoinElemsHead(ds);
    assert d != "" && d[0] != '/';
    SplitConcat(d, t);
    var es := Split(d + "/" + t);
    assert es == ds + Split(t);
    ResolveAppend([], ds, Split(t), false);
    ResolvePlain([], ds, false);
    assert [] + ds == ds;
    ResolveNoDotDot(ds, Split(t), false);
    var r := Resolve([], es, false);
    assert r == ds + k;
    assert (d + "/" + t)[0] == d[0];
    if k == [] {
      assert r == ds;
    } else {
      JoinElemsAppend(ds, k);
      assert JoinElems(r) == d + "/" + JoinElems(k);
      assert (d + "/" + JoinElems(k))[..|d + "/"|] == d + "/";
    }
  }

  /**
   * A tail with no ".." element joined to "root/name" stays in "root/name",
   * strictly below it when the tail keeps an element.
   */
  lemma JoinBelowChild(root: string, name: string, t: string)
    requires Plain(root) && Plain(name) && ".." !in Split(t)
    ensures Join(root, name) == root + "/" + name
    ensures var k := Kept(Split(t));
      Join(Join(root, name), t) == if k == [] then Join(root, name) else Join(root, name) + "/" + JoinElems(k)
    ensures Under(Join(Join(root, name), t), Join(root, name))
    ensures Kept(Split(t)) != [] ==> Join(Join(root, name), t) != Join(root, name)
  {
    JoinPlain(root, name);
    assert JoinElems([root, name]) == root + "/" + name;
    JoinBelow([root, name], t);
  }

  /** Joining one element that holds no '/' and is not "..": "" and "." vanish, any other
      name becomes a direct child. */
  lemma JoinName(root: string, name: string)
    requires Plain(root) && '/' !in name && name != ".."
    ensures Join(root, name) == if name == "" || name == "." then root else root + "/" + name
  {
    JoinElemsName([root], name);
    assert JoinElems([root]) == root;
  }

  /** The same below a directory of plain elements. */
  lemma JoinElemsName(ds: seq<string>, name: string)
    requires ds != [] && forall i :: 0 <= i < |ds| ==> Plain(ds[i])
    requires '/' !in name && name != ".."
    ensures Join(JoinElems(ds), name) == if name == "" || name == "." then JoinElems(ds) else JoinElems(ds) + "/" + name
  {
    SplitNoSlash(name);
    JoinBelow(ds, name);
    assert Kept([name]) == if name == "" || name == "." then [] else [name];
    assert JoinElems([name]) == name;
  }

  /** Joining "/" below a directory of plain elements leaves the directory. */
  lemma JoinElemsSlash(ds: seq<string>)
    requires ds != [] && forall i :: 0 <= i < |ds| ==> Plain(ds[i])
    ensures Join(JoinElems(ds), "/") == JoinElems(ds)
  {
    assert Split("/") == [""] + Split("") == ["", ""];
    assert Kept(["", ""]) == [] + Kept([""]) && Kept([""]) == [] + Kept([]);
    JoinBelow(ds, "/");
  }

  /** Joining a base name (see `Base`) other than ".." below "root/name": "", "." and "/"
      vanish, any other name becomes a direct child. */
  lemma JoinChildBase(root: string, name: string, b: string)
    requires Plain(root) && Plain(name) && (b == "/" || ('/' !in b && b != ".."))
    ensures Join(Join(root, name), b) == if b == "" || b == "." || b == "/" then Join(root, name) else Join(root, name) + "/" + b
  {
    JoinPlain(root, name);
    assert JoinElems([root, name]) == root + "/" + name;
    if b == "/" {
      JoinElemsSlash([root, name]);
    } else {
      JoinElemsName([root, name], b);
    }
  }

  /** `strings.Contains` with a one-character pattern is membership. */
  lemma ContainsChar(s: string, c: char)
    ensures Contains(s, [c]) <==> c in s
  {
    if c in s {
      var i :| 0 <= i < |s| && s[i] == c;
      assert OccursAt(s, [c], i);
    }
    if Contains(s, [c]) {
      var i :| 0 <= i <= |s| - 1 && OccursAt(s, [c], i);
      assert s[i] == s[i..i + 1][0];
    }
  }

  /** Two siblings named without '/' have disjoint subtrees. */
  lemma SiblingsDisjoint(d: string, x: string, y: string, p: string)
    requires '/' !in x && '/' !in y && x != y
    ensures !(Under(p, d + "/" + x) && Under(p, d + "/" + y))
  {
    var dx, dy := d + "/" + x, d + "/" + y;
    if Under(p, dx) && Under(p, dy) {
      if |x| < |y| {
        SiblingExtends(d, x, y, p);
      } else if |y| < |x| {
        SiblingExtends(d, y, x, p);
      } else {
        SiblingSame(d, x, y, p);
      }
    }
  }

  /** A path under two siblings of which the second is longer: the second continues the first with '/'. */
  lemma SiblingExtends(d: string, x: string, y: string, p: string)
    requires Under(p, d + "/" + x) && Under(p, d + "/" + y) && |x| < |y|
    ensures y[|x|] == '/'
  {
    var dx, dy := d + "/" + x, d + "/" + y;
    assert p[..|dy|] == dy by { if p != dy { assert p[..|dy + "/"|][..|dy|] == dy; } }
    assert p != dx && p[|dx|] == '/';
    assert y[|x|] == dy[|dx|];
  }

  /** A path under two siblings of equal length: they are the same sibling. */
  lemma SiblingSame(d: string, x: string, y: string, p: string)
    requires Under(p, d + "/" + x) && Under(p, d + "/" + y) && |x| == |y|
    ensures x == y
  {
    var dx, dy := d + "/" + x, d + "/" + y;
    assert p[..|dx|] == dx by { if p != dx { assert p[..|dx + "/"|][..|dx|] == dx; } }
    assert p[..|dy|] == dy by { if p != dy { assert p[..|dy + "/"|][..|dy|] == dy; } }
    assert x == dx[|d| + 1..] == dy[|d| + 1..] == y;
  }

  /** Distinct plain children of one directory have disjoint subtrees. */
  lemma ChildrenDisjoint(root: string, x: string, y: string, p: string)
    requires Plain(root) && Plain(x) && Plain(y) && x != y
    ensures !(Under(p, Join(root, x)) && Under(p, Join(root, y)))
  {
    JoinPlain(root, x);
    JoinPlain(root, y);
    SiblingsDisjoint(root, x, y, p);
  }

  /** ".." joined to "root/name" climbs back to "root". */
  lemma JoinParent(root: string, name: string)
    requires Plain(root) && Plain(name)
    ensures Join(Join(root, name), "..") == root
  {
    JoinPlain(root, name);
    var p := root + "/" + name + "/" + "..";
    SplitConcat(root + "/" + name, "..");
    SplitConcat(root, name);
    SplitNoSlash(root);
    SplitNoSlash(name);
    SplitNoSlash("..");
    var es := [root, name, ".."];
    assert Split(p) == es;
    assert es[1..] == [name, ".."] && es[1..][1..] == [".."];
    assert [root, name][..1] == [root];
    assert [] + [root] == [root] && [root] + [name] == [root, name];
    assert Resolve([], es, false) == Resolve([root], [name, ".."], false);
    assert Resolve([root], [name, ".."], false) == Resolve([root, name], [".."], false);
    assert Resolve([root, name], [".."], false) == Resolve([root], [], false);
    assert p[0] == root[0] != '/';
  }

  lemma {:induction false} JoinElemsHead(ds: seq<string>)
    requires ds != [] && Plain(ds[0])
    ensures JoinElems(ds) != "" && JoinElems(ds)[0] == ds[0][0]
  {
    if |ds| > 1 {
      assert JoinElems(ds) == ds[0] + ("/" + JoinElems(ds[1..]));
    }
  }

  /** Joining two plain names gives them separated by one slash. */
  lemma JoinPlain(a: string, b: string)
    requires Plain(a) && Plain(b)
    ensures Join(a, b) == a + "/" + b
  {
    SplitNoSlash(b);
    assert Kept(Split(b)) == [b];
    assert JoinElems([a]) == a;
    JoinBelow([a], b);
  }

  // ---------------------------------------------------------------------
  // Lemmas about Base, Ext and Lower

  lemma {:induction false} LastElementOfChild(d: string, n: string)
    requires '/' !in n
    ensures LastElement(d + "/" + n) == n
    decreases |n|
  {
    if |n| == 0 {
      var p := d + "/";
      assert p[|p| - 1] == '/';
    } else {
      var c := n[|n| - 1];
      var pre := n[..|n| - 1];
      assert n == pre + [c];
      assert d + "/" + n == (d + "/" + pre) + [c];
      LastElementOfChild(d, pre);
      LastElementSnoc(d + "/" + pre, c);
    }
  }

  /** One step of `LastElement` on a path ending in `c`. */
  lemma LastElementSnoc(pre: string, c: char)
    ensures LastElement(pre + [c]) == if c == '/' then "" else LastElement(pre) + [c]
  {
    var p := pre + [c];
    assert p[..|p| - 1] == pre;
  }

  lemma {:induction false} LastElementPlain(n: string)
    requires '/' !in n
    ensures LastElement(n) == n
    decreases |n|
  {
    if |n| > 0 {
      LastElementPlain(n[..|n| - 1]);
      assert n[..|n| - 1] + [n[|n| - 1]] == n;
    }
  }

  /** The base name of `d/n` is `n`, whatever the directory. */
  lemma BaseOfChild(d: string, n: string)
    requires n != "" && '/' !in n
    ensures Base(d + "/" + n) == n
  {
    var p := d + "/" + n;
    assert p[|p| - 1] == n[|n| - 1];
    assert TrimTrailingSlashes(p) == p;
    LastElementOfChild(d, n);
  }

  /** A name with no slash is its own base name. */
  lemma BaseOfName(n: string)
    requires n != "" && '/' !in n
    ensures Base(n) == n
  {
    assert TrimTrailingSlashes(n) == n;
    LastElementPlain(n);
  }

  /** The extension of `d/f` is the extension of `f`: directories do not count. */
  lemma {:induction false} ExtOfChild(d: string, f: string)
    requires '/' !in f
    ensures Ext(d + "/" + f) == Ext(f)
    decreases |f|
  {
    var p := d + "/" + f;
    if |f| == 0 {
      assert p[|p| - 1] == '/';
    } else {
      var c := f[|f| - 1];
      var pre := f[..|f| - 1];
      assert f == pre + [c];
      assert p == (d + "/" + pre) + [c];
      ExtOfChild(d, pre);
      ExtSnoc(d + "/" + pre, c);
      ExtSnoc(pre, c);
    }
  }

  /** One step of `Ext` on a path ending in `c`. */
  lemma ExtSnoc(pre: string, c: char)
    ensures Ext(pre + [c]) ==
      if c == '/' then "" else if c == '.' then "." else
      (var e := Ext(pre); if e == "" then "" else e + [c])
  {
    var p := pre + [c];
    assert p[..|p| - 1] == pre;
  }

  /** Only the final extension counts: after the last dot comes `x`. */
  lemma {:induction false} ExtOfDotSuffix(s: string, x: string)
    requires '.' !in x && '/' !in x
    ensures Ext(s + "." + x) == "." + x
    decreases |x|
  {
    var p := s + "." + x;
    if |x| > 0 {
      assert p[|p| - 1] == x[|x| - 1];
      assert p[..|p| - 1] == s + "." + x[..|x| - 1];
      ExtOfDotSuffix(s, x[..|x| - 1]);
      assert "." + x[..|x| - 1] + [x[|x| - 1]] == "." + x;
    }
  }

  /** A path with no dot after its last slash has no extension. */
  lemma {:induction false} ExtNoDot(p: string)
    requires '.' !in p
    ensures Ext(p) == ""
    decreases |p|
  {
    if |p| > 0 {
      ExtNoDot(p[..|p| - 1]);
    }
  }

  /** Lower-casing commutes with taking the extension ('.' and '/' are not letters). */
  lemma {:induction false} ExtLower(p: string)
    ensures Ext(Lower(p)) == Lower(Ext(p))
    decreases |p|
  {
    if |p| > 0 {
      var pre, c := p[..|p| - 1], p[|p| - 1];
      assert p == pre + [c];
      LowerSnoc(pre, c);
      ExtSnoc(pre, c);
      ExtSnoc(Lower(pre), LowerChar(c));
      ExtLower(pre);
      if c != '/' && c != '.' && Ext(pre) != "" {
        LowerSnoc(Ext(pre), c);
      }
    }
  }

  /** Lower-casing works character by character. */
  lemma LowerSnoc(s: string, c: char)
    ensures Lower(s + [c]) == Lower(s) + [LowerChar(c)]
  {
  }

  lemma LowerIdempotent(s: string)
    ensures Lower(Lower(s)) == Lower(s)
  {
  }
}
