/** Absolute path text as the isolation helpers handle it (src/exec/settings_paths.py:12-22 and
    `os.path.dirname`). */
module PathText {
  import opened Wrappers

  function SplitSlash(s: string): (parts: seq<string>)
    ensures |parts| >= 1
    ensures forall i :: 0 <= i < |parts| ==> '/' !in parts[i]
  {
    if s == "" then [""] else
      var rest := SplitSlash(s[..|s| - 1]);
      var c := s[|s| - 1];
      if c == '/' then rest + [""] else rest[..|rest| - 1] + [rest[|rest| - 1] + [c]]
  }

  /** `"/" + "/".join(part for part in parts if part)`. */
  function JoinParts(parts: seq<string>): string {
    if parts == [] then "/" else
      var front := JoinParts(parts[..|parts| - 1]);
      var last := parts[|parts| - 1];
      if last == "" then front else if front == "/" then front + last else front + "/" + last
  }

  /** `path`: refuses anything but an absolute path without dot components, and drops empty ones. */
  function Path(value: string): Result<string> {
    if value == "" || value[0] != '/' || '\0' in value || "." in SplitSlash(value) || ".." in SplitSlash(value) then Err
    else Ok(JoinParts(SplitSlash(value)))
  }

  /** What `path` returns: no empty component and no trailing slash, except the root itself. */
  predicate Normal(p: string) {
    && p != "" && p[0] == '/'
    && (p == "/" || p[|p| - 1] != '/')
    && forall i :: 0 <= i < |p| - 1 ==> !(p[i] == '/' && p[i + 1] == '/')
  }

  lemma {:induction false} JoinPartsNormal(parts: seq<string>)
    requires forall i :: 0 <= i < |parts| ==> '/' !in parts[i]
    ensures Normal(JoinParts(parts))
  {
    if parts != [] {
      var n := |parts| - 1;
      JoinPartsNormal(parts[..n]);
      var front, last := JoinParts(parts[..n]), parts[n];
      if last != "" {
        assert last[0] in last && last[|last| - 1] in last;
        var p := JoinParts(parts);
        forall i | 0 <= i < |p| - 1 ensures !(p[i] == '/' && p[i + 1] == '/') {
          var start := |p| - |last|;
          if i + 1 >= start {
            assert p[i + 1] == last[i + 1 - start];
            assert last[i + 1 - start] in last;
          } else {
            assert i + 1 < |front| || (front != "/" && p[i] == front[i]);
          }
        }
      }
    }
  }

  /** No component is `.` or `..`. */
  predicate DotFree(p: string) {
    "." !in SplitSlash(p) && ".." !in SplitSlash(p)
  }

  lemma {:induction false} SplitAfterSlash(a: string, b: string)
    requires '/' !in b
    ensures SplitSlash(a + "/" + b) == SplitSlash(a) + [b]
  {
    if b == "" {
      assert (a + "/" + b)[..|a|] == a;
    } else {
      var n := |b| - 1;
      assert (a + "/" + b)[..|a| + 1 + n] == a + "/" + b[..n];
      assert b[n] in b && b[..n] + [b[n]] == b;
      SplitAfterSlash(a, b[..n]);
    }
  }

  lemma {:induction false} SplitRootAnd(last: string)
    requires '/' !in last
    ensures SplitSlash("/" + last) == ["", last]
  {
    SplitAfterSlash("", last);
    assert "" + "/" + last == "/" + last;
  }

  /** The components that say something, in order. */
  function Names(parts: seq<string>): seq<string> {
    if parts == [] then [] else
      var last := parts[|parts| - 1];
      Names(parts[..|parts| - 1]) + (if last == "" then [] else [last])
  }

  lemma {:induction false} NamesMore(parts: seq<string>, last: string)
    ensures Names(parts + [last]) == Names(parts) + (if last == "" then [] else [last])
  {
    assert (parts + [last])[..|parts|] == parts;
  }

  lemma {:induction false} NamesAre(parts: seq<string>)
    ensures forall c :: c in parts && c != "" <==> c in Names(parts)
  {
    if parts != [] {
      NamesAre(parts[..|parts| - 1]);
      assert parts == parts[..|parts| - 1] + [parts[|parts| - 1]];
    }
  }

  lemma RootSaysNothing()
    ensures Names(SplitSlash("/")) == []
  {
    SplitRootAnd("");
    assert "/" + "" == "/";
    NamesMore([""], "");
    NamesMore([], "");
    assert [""] + [""] == ["", ""] && [] + [""] == [""];
  }

  lemma {:induction false} OneMoreName(front: string, last: string)
    requires last != "" && '/' !in last
    ensures Names(SplitSlash(if front == "/" then front + last else front + "/" + last))
            == Names(SplitSlash(front)) + [last]
  {
    if front == "/" {
      SplitRootAnd(last);
      RootSaysNothing();
      NamesMore([""], last);
      NamesMore([], "");
      assert [""] + [last] == ["", last] && [] + [""] == [""];
    } else {
      SplitAfterSlash(front, last);
      NamesMore(SplitSlash(front), last);
    }
  }

  /** Joining keeps the components, and puts in none of its own. */
  lemma {:induction false} JoinPartsSplit(parts: seq<string>)
    requires forall i :: 0 <= i < |parts| ==> '/' !in parts[i]
    ensures Names(SplitSlash(JoinParts(parts))) == Names(parts)
  {
    if parts == [] {
      RootSaysNothing();
    } else {
      var n := |parts| - 1;
      JoinPartsSplit(parts[..n]);
      if parts[n] != "" {
        OneMoreName(JoinParts(parts[..n]), parts[n]);
      }
    }
  }

  lemma PathNormal(value: string)
    ensures Path(value).Ok? ==> Normal(Path(value).value) && DotFree(Path(value).value)
  {
    JoinPartsNormal(SplitSlash(value));
    JoinPartsSplit(SplitSlash(value));
    NamesAre(SplitSlash(value));
    NamesAre(SplitSlash(JoinParts(SplitSlash(value))));
  }

  /** `path` accepts exactly the absolute texts without NUL and without dot components, and keeps the components. */
  lemma {:induction false} PathKeepsNames(value: string)
    ensures Path(value).Ok? <==> value != "" && value[0] == '/' && '\0' !in value && DotFree(value)
    ensures Path(value).Ok? ==> Names(SplitSlash(Path(value).value)) == Names(SplitSlash(value))
  {
    JoinPartsSplit(SplitSlash(value));
  }

  // ----- containment -----

  function StripSlash(p: string): string {
    if p != "" && p[|p| - 1] == '/' then StripSlash(p[..|p| - 1]) else p
  }

  /** `within`: the same path or beneath it. */
  predicate Within(value: string, root: string) {
    value == root || StripSlash(root) + "/" <= value
  }

  lemma WithinPrefix(v: string, r: string)
    requires Normal(r)
    ensures Within(v, r) <==> v == r || (if r == "/" then "/" else r + "/") <= v
  {
    if r == "/" {
      assert r[..0] == "";
      assert StripSlash(r) == "";
      assert "" + "/" == "/";
    }
  }

  lemma RootHoldsAll(v: string)
    requires Normal(v)
    ensures Within(v, "/")
  {
    WithinPrefix(v, "/");
  }

  lemma WithinTrans(v: string, r: string, s: string)
    requires Normal(v) && Normal(r) && Normal(s) && Within(v, r) && Within(r, s)
    ensures Within(v, s)
  {
    WithinPrefix(v, r);
    WithinPrefix(r, s);
    WithinPrefix(v, s);
  }

  /** Two paths that hold the same path are nested one way or the other. */
  lemma WithinComparable(v: string, r: string, s: string)
    requires Normal(v) && Normal(r) && Normal(s) && Within(v, r) && Within(v, s)
    ensures Within(r, s) || Within(s, r)
    ensures |r| <= |s| ==> Within(s, r)
  {
    WithinPrefix(v, r);
    WithinPrefix(v, s);
    WithinPrefix(r, s);
    WithinPrefix(s, r);
    assert |r| <= |v| && v[..|r|] == r && |s| <= |v| && v[..|s|] == s;
    if |r| < |s| && r != "/" {
      assert s[..|r| + 1] == v[..|r| + 1] == r + "/";
    }
  }

  // ----- parents -----

  function LastSlash(p: string): (i: nat)
    requires p != "" && p[0] == '/'
    ensures i < |p| && p[i] == '/' && forall j :: i < j < |p| ==> p[j] != '/'
  {
    if p[|p| - 1] == '/' then |p| - 1 else LastSlash(p[..|p| - 1])
  }

  /** `os.path.dirname` of an absolute path. */
  function Dirname(p: string): string
    requires p != "" && p[0] == '/'
  {
    var head := p[..LastSlash(p) + 1];
    if forall i :: 0 <= i < |head| ==> head[i] == '/' then head else StripSlash(head)
  }

  lemma {:induction false} DirnameOf(p: string)
    requires Normal(p)
    ensures Normal(Dirname(p)) && Within(p, Dirname(p))
    ensures p != "/" ==> |Dirname(p)| < |p|
    ensures Dirname(p) == if LastSlash(p) == 0 then "/" else p[..LastSlash(p)]
  {
    var i := LastSlash(p);
    var head := p[..i + 1];
    if i == 0 {
      assert head == "/" && Dirname(p) == "/";
    } else {
      assert head[i - 1] == p[i - 1] && p[i - 1] != '/' && p[i] == '/';
      assert head[..|head| - 1] == p[..i];
      assert StripSlash(p[..i]) == p[..i];
      assert Dirname(p) == p[..i];
      assert p[..i] + "/" == head;
    }
    WithinPrefix(p, Dirname(p));
  }

  /** What holds a path from above holds its directory. */
  lemma ParentWithin(p: string, d: string)
    requires Normal(p) && Normal(d) && Within(p, d) && p != d
    ensures p != "/" && Within(Dirname(p), d)
  {
    WithinPrefix(p, d);
    DirnameOf(p);
    var i, dir := LastSlash(p), Dirname(p);
    WithinPrefix(dir, d);
    if d == "/" {
      RootHoldsAll(dir);
    } else {
      assert p[|d|] == (d + "/")[|d|] == '/';
      assert |d| <= i;
      assert p[..|d|] == d;
      assert i > |d| ==> dir[..|d| + 1] == d + "/";
    }
  }

  // ----- containment by components -----

  function Extend(parts: seq<string>, c: char): seq<string>
    requires parts != []
  {
    if c == '/' then parts + [""] else parts[..|parts| - 1] + [parts[|parts| - 1] + [c]]
  }

  lemma {:induction false} SplitOne(s: string, c: char)
    ensures SplitSlash(s + [c]) == Extend(SplitSlash(s), c)
  {
    assert (s + [c])[..|s|] == s;
  }

  lemma ExtendLater(x: seq<string>, y: seq<string>, c: char)
    requires y != []
    ensures Extend(x + y, c) == x + Extend(y, c)
  {
  }

  lemma {:induction false} SplitJoinedMore(a: string, front: string, whole: string, c: char)
    requires SplitSlash(whole) == SplitSlash(a) + SplitSlash(front)
    ensures SplitSlash(whole + [c]) == SplitSlash(a) + SplitSlash(front + [c])
  {
    SplitOne(whole, c);
    SplitOne(front, c);
    ExtendLater(SplitSlash(a), SplitSlash(front), c);
  }

  lemma Joined(a: string, front: string, c: char)
    ensures a + "/" + (front + [c]) == a + "/" + front + [c]
  {
  }

  lemma {:induction false} SplitJoined(a: string, b: string)
    ensures SplitSlash(a + "/" + b) == SplitSlash(a) + SplitSlash(b)
  {
    if b == "" {
      SplitAfterSlash(a, b);
    } else {
      var front, c := b[..|b| - 1], b[|b| - 1];
      SplitJoined(a, front);
      SplitJoinedMore(a, front, a + "/" + front, c);
      Joined(a, front, c);
      assert b == front + [c];
    }
  }

  lemma {:induction false} NamesConcat(a: seq<string>, b: seq<string>)
    ensures Names(a + b) == Names(a) + Names(b)
  {
    if b == [] {
      assert a + b == a;
    } else {
      var n := |b| - 1;
      NamesConcat(a, b[..n]);
      assert (a + b)[..|a| + n] == a + b[..n];
    }
  }

  function Deeper(p: string, last: string): string {
    if last == "" then p else if p == "/" then p + last else p + "/" + last
  }

  lemma {:induction false} JoinOne(front: seq<string>, last: string)
    ensures JoinParts(front + [last]) == Deeper(JoinParts(front), last)
  {
    assert (front + [last])[..|front|] == front;
  }

  lemma {:induction false} JoinNames(parts: seq<string>)
    ensures JoinParts(Names(parts)) == JoinParts(parts)
  {
    if parts != [] {
      var n := |parts| - 1;
      JoinNames(parts[..n]);
      assert parts == parts[..n] + [parts[n]];
      JoinOne(parts[..n], parts[n]);
      NamesMore(parts[..n], parts[n]);
      if parts[n] == "" {
        assert Names(parts) == Names(parts[..n]);
      } else {
        JoinOne(Names(parts[..n]), parts[n]);
      }
    }
  }

  /** A normal path is its components joined. */
  lemma {:induction false} NormalIsJoined(p: string)
    requires Normal(p)
    ensures JoinParts(SplitSlash(p)) == p
    decreases |p|
  {
    var i := LastSlash(p);
    var last := p[i + 1..];
    assert '/' !in last;
    assert p == p[..i] + "/" + last;
    SplitAfterSlash(p[..i], last);
    JoinOne(SplitSlash(p[..i]), last);
    if i == 0 {
      EmptyIsRoot();
    } else {
      DirnameOf(p);
      NormalIsJoined(Dirname(p));
      assert last != "" && p[..i] != "/";
    }
  }

  lemma EmptyIsRoot()
    ensures SplitSlash("") == [""] && JoinParts([""]) == "/" && Names([""]) == []
  {
    JoinOne([], "");
    NamesMore([], "");
    assert [] + [""] == [""];
  }

  lemma DeeperWithin(p: string, root: string, last: string)
    requires Normal(root) && Within(p, root)
    ensures Within(Deeper(p, last), root)
  {
    WithinPrefix(p, root);
    WithinPrefix(Deeper(p, last), root);
  }

  lemma {:induction false} JoinMore(names: seq<string>, more: seq<string>)
    requires Normal(JoinParts(names))
    ensures Within(JoinParts(names + more), JoinParts(names))
  {
    if more == [] {
      assert names + more == names;
    } else {
      var n := |more| - 1;
      JoinMore(names, more[..n]);
      assert names + more == names + more[..n] + [more[n]];
      JoinOne(names + more[..n], more[n]);
      DeeperWithin(JoinParts(names + more[..n]), JoinParts(names), more[n]);
    }
  }

  lemma {:induction false} BelowNames(below: string, rest: string)
    ensures Names(SplitSlash(below)) <= Names(SplitSlash(below + "/" + rest))
  {
    SplitJoined(below, rest);
    NamesConcat(SplitSlash(below), SplitSlash(rest));
  }

  lemma {:induction false} WithinNames(v: string, r: string)
    requires Normal(v) && Normal(r) && Within(v, r)
    ensures Names(SplitSlash(r)) <= Names(SplitSlash(v))
  {
    WithinPrefix(v, r);
    if v != r {
      var below := if r == "/" then "" else r;
      RootSaysNothing();
      EmptyIsRoot();
      BelowNames(below, v[|below| + 1..]);
      assert v == below + "/" + v[|below| + 1..];
    }
  }

  lemma {:induction false} NamesJoined(p: string)
    requires Normal(p)
    ensures JoinParts(Names(SplitSlash(p))) == p
  {
    NormalIsJoined(p);
    JoinNames(SplitSlash(p));
  }

  lemma {:induction false} JoinedWithin(outer: seq<string>, inner: seq<string>)
    requires outer <= inner && Normal(JoinParts(outer))
    ensures Within(JoinParts(inner), JoinParts(outer))
  {
    JoinMore(outer, inner[|outer|..]);
    assert outer + inner[|outer|..] == inner;
  }

  lemma {:induction false} PrefixIsWithin(v: string, r: string)
    requires Normal(v) && Normal(r) && Names(SplitSlash(r)) <= Names(SplitSlash(v))
    ensures Within(v, r)
  {
    NamesJoined(v);
    NamesJoined(r);
    JoinedWithin(Names(SplitSlash(r)), Names(SplitSlash(v)));
  }

  /** A normal path lies at or under another exactly when it begins with the other's components. */
  lemma {:induction false} WithinIsPrefix(v: string, r: string)
    requires Normal(v) && Normal(r)
    ensures Within(v, r) <==> Names(SplitSlash(r)) <= Names(SplitSlash(v))
  {
    if Within(v, r) {
      WithinNames(v, r);
    }
    if Names(SplitSlash(r)) <= Names(SplitSlash(v)) {
      PrefixIsWithin(v, r);
    }
  }
}
