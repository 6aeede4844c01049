/** The path arithmetic behind the key/value store: Go's `strings.Split`, `strings.Count`,
    `strings.TrimLeft` and `filepath.Join` on '/'-separated keys, and what they do on keys
    that are rendered from well-formed segments. */
module Paths {
  import opened Collections
  import opened Strings

  /** A name that survives path cleaning. */
  predicate Segment(s: string) {
    s != "" && '/' !in s && s != "." && s != ".."
  }

  predicate Segments(p: seq<string>) {
    forall i :: 0 <= i < |p| ==> Segment(p[i])
  }

  /** The absolute key for a list of segments. */
  function Render(p: seq<string>): string {
    if p == [] then "" else "/" + p[0] + Render(p[1..])
  }

  /** The same without the leading separator. */
  function Relative(p: seq<string>): string {
    if p == [] then "" else p[0] + Render(p[1..])
  }

  lemma RenderCons(p: seq<string>)
    requires p != []
    ensures Render(p) == "/" + (p[0] + Render(p[1..]))
  {
    Appended("/", p[0], Render(p[1..]));
  }

  lemma RenderRelative(p: seq<string>)
    requires p != []
    ensures Render(p) == "/" + Relative(p)
  {
    RenderCons(p);
  }

  function Split(s: string): (r: seq<string>)
    ensures r != []
  {
    if s == "" then [""]
    else
      var r := Split(s[1..]);
      if s[0] == '/' then [""] + r else [[s[0]] + r[0]] + r[1..]
  }

  function Count(s: string): nat {
    if s == "" then 0 else (if s[0] == '/' then 1 else 0) + Count(s[1..])
  }

  function TrimLeft(s: string): string {
    if s != "" && s[0] == '/' then TrimLeft(s[1..]) else s
  }

  /** Trimming takes off all leading '/' and nothing else. */
  lemma {:induction false} Trimmed(s: string)
    ensures var r := TrimLeft(s);
      && (r == "" || r[0] != '/')
      && |r| <= |s| && r == s[|s| - |r|..] && forall i :: 0 <= i < |s| - |r| ==> s[i] == '/'
  {
    if s != "" && s[0] == '/' {
      Trimmed(s[1..]);
      var r := TrimLeft(s[1..]);
      forall i | 0 <= i < |s| - |r| ensures s[i] == '/' {
        assert i > 0 ==> s[i] == s[1..][i - 1];
      }
    }
  }

  /** Putting '/' between parts. */
  function Rejoin(parts: seq<string>): string
    requires parts != []
  {
    if |parts| == 1 then parts[0] else parts[0] + "/" + Rejoin(parts[1..])
  }

  /** Splitting any string: the parts hold no '/', there is one more of them than there are '/', and
      put together again they are the string. */
  lemma {:induction false} SplitRejoins(s: string)
    ensures Rejoin(Split(s)) == s && |Split(s)| == Count(s) + 1
    ensures forall i :: 0 <= i < |Split(s)| ==> '/' !in Split(s)[i]
  {
    if s != "" {
      SplitRejoins(s[1..]);
      assert s == [s[0]] + s[1..];
      RejoinSlash(Split(s[1..]));
      RejoinFirst(s[0], Split(s[1..]));
    }
  }

  lemma RejoinSlash(r: seq<string>)
    requires r != []
    ensures Rejoin([""] + r) == "/" + Rejoin(r)
  {
    var empty := "";
    var parts := [empty] + r;
    assert parts[1..] == r && parts[0] == empty && |parts| > 1;
    assert empty + "/" == "/";
  }

  lemma RejoinFirst(c: char, r: seq<string>)
    requires r != []
    ensures Rejoin([[c] + r[0]] + r[1..]) == [c] + Rejoin(r)
  {
    var parts := [[c] + r[0]] + r[1..];
    assert parts[1..] == r[1..] && parts[0] == [c] + r[0] && |parts| == |r|;
    if |r| > 1 {
      Appended([c], r[0], "/");
      Appended([c], r[0] + "/", Rejoin(r[1..]));
    }
  }

  /** Path cleaning over the split parts: drop "" and ".", let ".." undo a segment. */
  function Resolve(parts: seq<string>, stack: seq<string>, rooted: bool): seq<string>
    decreases |parts|
  {
    if parts == [] then stack
    else
      var e := parts[0];
      var top := |stack| - 1;
      var stack' :=
        if e == "" || e == "." then stack
        else if e != ".." then stack + [e]
        else if stack != [] && stack[top] != ".." then stack[..top]
        else if rooted then stack
        else stack + [e];
      Resolve(parts[1..], stack', rooted)
  }

  /** A ".." undoes the segment before it; at the root it is dropped, elsewhere it stays; "" and "."
      count for nothing. */
  lemma DotsResolved(x: string, rest: seq<string>, stack: seq<string>, rooted: bool)
    requires Segment(x)
    ensures Resolve([x] + ([".."] + rest), stack, rooted) == Resolve(rest, stack, rooted)
    ensures Resolve([".."] + rest, [], true) == Resolve(rest, [], true)
    ensures Resolve([".."] + rest, [], false) == Resolve(rest, [".."], false)
    ensures Resolve(["."] + rest, stack, rooted) == Resolve([""] + rest, stack, rooted) == Resolve(rest, stack, rooted)
    ensures Clean("") == "." && Clean("/") == "/"
  {
    assert Split("") == [""] && Split("/") == ["", ""];
    var tail := [".."] + rest;
    assert ([x] + tail)[1..] == tail && tail[1..] == rest;
    assert (["."] + rest)[1..] == rest && ([""] + rest)[1..] == rest;
    assert (stack + [x])[..|stack|] == stack;
    var none: seq<string> := [];
    assert none + [".."] == [".."];
  }

  function Clean(s: string): string {
    var rooted := s != "" && s[0] == '/';
    var parts := Resolve(Split(s), [], rooted);
    if rooted then (if parts == [] then "/" else Render(parts))
    else if parts == [] then "." else Relative(parts)
  }

  /** `filepath.Join` of two elements: empty elements are ignored. */
  function Join(a: string, b: string): string {
    if a != "" then Clean(a + "/" + b) else if b != "" then Clean(b) else ""
  }

  lemma {:induction false} SplitAtSlash(a: string, b: string)
    requires '/' !in a
    ensures Split(a + "/" + b) == [a] + Split(b)
  {
    var s := a + "/" + b;
    if a == "" {
      assert s[1..] == b;
    } else {
      assert s[1..] == a[1..] + "/" + b;
      SplitAtSlash(a[1..], b);
      assert Split(s[1..])[1..] == Split(b);
      assert [a[0]] + a[1..] == a;
    }
  }

  lemma {:induction false} SplitPlain(a: string)
    requires '/' !in a
    ensures Split(a) == [a]
  {
    if a != "" {
      SplitPlain(a[1..]);
      assert Split(a[1..])[1..] == [];
      assert [a[0]] + a[1..] == a;
    }
  }

  lemma RelativeCons(p: seq<string>)
    requires |p| > 1
    ensures Relative(p) == p[0] + "/" + Relative(p[1..])
  {
    RenderRelative(p[1..]);
  }

  /** Splitting undoes rendering. */
  lemma {:induction false} SplitRelative(p: seq<string>)
    requires Segments(p) && p != []
    ensures Split(Relative(p)) == p
  {
    if |p| == 1 {
      assert p == [p[0]] && Render(p[1..]) == "";
      SplitPlain(p[0]);
      assert Relative(p) == p[0];
    } else {
      RelativeCons(p);
      SplitRelative(p[1..]);
      SplitAtSlash(p[0], Relative(p[1..]));
      assert [p[0]] + p[1..] == p;
    }
  }

  lemma SplitRender(p: seq<string>)
    requires Segments(p) && p != []
    ensures Split(Render(p)) == [""] + p
  {
    SplitRelative(p);
    RenderRelative(p);
    SplitAtSlash("", Relative(p));
    assert "" + "/" + Relative(p) == Render(p);
  }

  lemma {:induction false} ResolveSegments(p: seq<string>, stack: seq<string>, rooted: bool)
    requires Segments(p)
    ensures Resolve(p, stack, rooted) == stack + p
    decreases |p|
  {
    if p == [] {
      assert stack + p == stack;
    } else {
      ResolveSegments(p[1..], stack + [p[0]], rooted);
      assert stack + [p[0]] + p[1..] == stack + p;
    }
  }

  lemma {:induction false} RenderAppend(p: seq<string>, e: string)
    ensures Render(p + [e]) == Render(p) + "/" + e
  {
    if p == [] {
      assert [e][1..] == [];
      assert p + [e] == [e];
    } else {
      assert (p + [e])[1..] == p[1..] + [e];
      RenderAppend(p[1..], e);
    }
  }

  lemma CleanRender(q: seq<string>)
    requires Segments(q) && q != []
    ensures Clean(Render(q)) == Render(q)
  {
    SplitRender(q);
    var parts := [""] + q;
    assert parts[1..] == q;
    ResolveSegments(q, [], true);
    assert Resolve(parts, [], true) == [] + q == q;
  }

  lemma RelativeHead(q: seq<string>)
    requires Segments(q) && q != []
    ensures Relative(q) != "" && Relative(q)[0] != '/'
  {
    assert Segment(q[0]);
    assert (q[0] + Render(q[1..]))[0] == q[0][0];
  }

  lemma CleanRelative(q: seq<string>)
    requires Segments(q) && q != []
    ensures Clean(Relative(q)) == Relative(q)
  {
    SplitRelative(q);
    ResolveSegments(q, [], false);
    assert [] + q == q;
    RelativeHead(q);
  }

  /** Joining a segment to a well-formed absolute key appends it. */
  lemma JoinAppends(p: seq<string>, e: string)
    requires Segments(p) && Segment(e) && p != []
    ensures Join(Render(p), e) == Render(p + [e])
  {
    RenderAppend(p, e);
    CleanRender(p + [e]);
  }

  /** ... and to a relative one, which may be empty. */
  lemma JoinAppendsRelative(p: seq<string>, e: string)
    requires Segments(p) && Segment(e)
    ensures Join(Relative(p), e) == Relative(p + [e])
  {
    var q := p + [e];
    CleanRelative(q);
    if p == [] {
      assert q[1..] == [] && Relative(q) == e;
    } else {
      RenderAppend(p[1..], e);
      assert q[1..] == p[1..] + [e];
      assert Relative(q) == Relative(p) + "/" + e;
      assert Relative(p)[0] == p[0][0];
    }
  }

  lemma {:induction false} CountPlain(a: string, b: string)
    requires '/' !in a
    ensures Count(a + b) == Count(b)
  {
    if a == "" {
      assert a + b == b;
    } else {
      assert (a + b)[1..] == a[1..] + b;
      CountPlain(a[1..], b);
    }
  }

  /** A key has as many separators as segments. */
  lemma {:induction false} CountRender(p: seq<string>)
    requires Segments(p)
    ensures Count(Render(p)) == |p|
  {
    if p != [] {
      var s := Render(p);
      assert s[1..] == p[0] + Render(p[1..]);
      CountPlain(p[0], Render(p[1..]));
      CountRender(p[1..]);
    }
  }

  lemma TrimSlash(s: string)
    requires s != "" && s[0] != '/'
    ensures TrimLeft("/" + s) == s
  {
    assert ("/" + s)[1..] == s;
  }

  lemma TrimRender(p: seq<string>)
    requires Segments(p) && p != []
    ensures TrimLeft(Render(p)) == Relative(p)
  {
    var r := Relative(p);
    assert r == p[0] + Render(p[1..]) && r[0] == p[0][0];
    assert Render(p) == "/" + r;
    TrimSlash(r);
  }

  lemma RenderInjective(p: seq<string>, q: seq<string>)
    requires Segments(p) && Segments(q)
    ensures Render(p) == Render(q) <==> p == q
  {
    if p != [] && q != [] {
      SplitRender(p);
      SplitRender(q);
      assert ([""] + p)[1..] == p && ([""] + q)[1..] == q;
    }
  }

  /** When `key` starts, as a string, with `prefix`: all segments but the last agree, and the
      last one of the prefix is a string prefix of the key's. */
  predicate Under(key: seq<string>, prefix: seq<string>) {
    var n := |prefix|;
    n == 0 || (|key| >= n && key[..n - 1] == prefix[..n - 1] && HasPrefix(key[n - 1], prefix[n - 1]))
  }

  /** Two slash-free names followed by the rest of two keys, compared as strings. */
  lemma HeadPrefix(a: string, b: string, x: string, y: string)
    requires '/' !in a && '/' !in b
    requires x == "" || x[0] == '/'
    requires y == "" || y[0] == '/'
    ensures HasPrefix(b + y, a + x) <==> if x == "" then HasPrefix(b, a) else a == b && HasPrefix(y, x)
  {
    if HasPrefix(b + y, a + x) {
      assert forall i :: 0 <= i < |a| ==> a[i] == (a + x)[i] == (b + y)[i] && a[i] != '/';
      assert y != "" ==> (b + y)[|b|] == '/';
      assert |a| <= |b|;
      assert b[..|a|] == (b + y)[..|a|] == (a + x)[..|a|] == a;
      if x != "" {
        assert (b + y)[|a|] == (a + x)[|a|] == '/';
        assert forall i :: 0 <= i < |b| ==> (b + y)[i] == b[i] != '/';
        assert b == a && (b + y)[|a|..] == y && (a + x)[|a|..] == x;
      }
    } else if x == "" {
      assert a + x == a;
    }
  }

  lemma RenderHead(p: seq<string>)
    ensures Render(p) == "" <==> p == []
    ensures p != [] ==> Render(p)[0] == '/'
  {
  }

  lemma {:induction false} PrefixOfRendered(key: seq<string>, prefix: seq<string>)
    requires Segments(key) && Segments(prefix)
    ensures HasPrefix(Render(key), Render(prefix)) <==> Under(key, prefix)
  {
    if prefix != [] && key != [] {
      PrefixOfRendered(key[1..], prefix[1..]);
      PrefixStep(key, prefix);
      UnderTail(key, prefix);
    }
  }

  lemma PrefixStep(key: seq<string>, prefix: seq<string>)
    requires Segments(key) && Segments(prefix) && key != [] && prefix != []
    ensures HasPrefix(Render(key), Render(prefix)) <==>
      if |prefix| == 1 then HasPrefix(key[0], prefix[0])
      else key[0] == prefix[0] && HasPrefix(Render(key[1..]), Render(prefix[1..]))
  {
    RenderHead(key[1..]);
    RenderHead(prefix[1..]);
    RenderCons(key);
    RenderCons(prefix);
    SlashedPrefix(prefix[0], key[0], Render(prefix[1..]), Render(key[1..]));
  }

  lemma SlashedPrefix(a: string, b: string, x: string, y: string)
    requires '/' !in a && '/' !in b
    requires x == "" || x[0] == '/'
    requires y == "" || y[0] == '/'
    ensures HasPrefix("/" + (b + y), "/" + (a + x)) <==> if x == "" then HasPrefix(b, a) else a == b && HasPrefix(y, x)
  {
    HeadPrefix(a, b, x, y);
    PeelSlash(b + y, a + x);
  }

  lemma PeelSlash(s: string, t: string)
    ensures HasPrefix("/" + s, "/" + t) <==> HasPrefix(s, t)
  {
    assert ("/" + s)[1..] == s && ("/" + t)[1..] == t;
    if HasPrefix("/" + s, "/" + t) {
      assert s[..|t|] == ("/" + s)[1..|t| + 1] == ("/" + t)[1..];
    }
    if HasPrefix(s, t) {
      assert ("/" + s)[..|t| + 1] == "/" + s[..|t|];
    }
  }

  lemma UnderTail(key: seq<string>, prefix: seq<string>)
    requires key != [] && prefix != []
    ensures Under(key, prefix) <==>
      if |prefix| == 1 then HasPrefix(key[0], prefix[0]) else key[0] == prefix[0] && Under(key[1..], prefix[1..])
  {
    var n := |prefix|;
    if n > 1 && |key| >= n {
      assert key[..n - 1] == [key[0]] + key[1..][..n - 2];
      assert prefix[..n - 1] == [prefix[0]] + prefix[1..][..n - 2];
    }
  }
}
