/** When a stream key identifies a label set. */
module LokiKeys {
  import opened LokiLabels

  // ----- the key identifies the label set

  predicate Without(s: string, c: char) {
    c !in s
  }

  /** Two splits at the first occurrence of a separator agree. */
  lemma {:induction false} SplitUnique(a: string, b: string, sep: char, x: string, y: string)
    requires Without(a, sep) && Without(b, sep) && a + [sep] + x == b + [sep] + y
    ensures a == b && x == y
  {
    var l, r := a + [sep] + x, b + [sep] + y;
    assert l[..|a|] == a && l[|a|] == sep && l[|a| + 1..] == x;
    assert r[..|b|] == b && r[|b|] == sep && r[|b| + 1..] == y;
    assert forall i | 0 <= i < |a| :: l[i] == a[i];
    assert forall i | 0 <= i < |b| :: r[i] == b[i];
    assert |a| == |b|;
  }

  predicate Written(alphabet: set<char>, value: string) {
    forall c | c in value :: c in alphabet
  }

  /** The label sets one sink builds: the fixed names are always there, each with
      one of its values; the optional ones only with a value. */
  datatype Shape = Shape(fixed: map<string, set<string>>, optional: set<string>)

  /** Names are labels, and fixed values come from the environment, which cannot
      hold NUL. */
  predicate Sane(shape: Shape) {
    && shape.fixed.Keys !! shape.optional
    && (forall n | n in shape.fixed.Keys + shape.optional :: IsLabel(n))
    && (forall n | n in shape.fixed :: shape.fixed[n] != {} && forall x | x in shape.fixed[n] :: Without(x, '\0'))
  }

  predicate Fits(shape: Shape, alphabet: set<char>, m: Labels) {
    && shape.fixed.Keys <= m.Keys <= shape.fixed.Keys + shape.optional
    && forall n | n in m ::
         if n in shape.fixed then m[n] in shape.fixed[n] else m[n] != "" && Written(alphabet, m[n])
  }

  /** A fixed name with one of its values can be spelled out. */
  predicate Spelled(shape: Shape, alphabet: set<char>, f: string)
    requires f in shape.fixed
  {
    Written(alphabet, f) && exists x :: x in shape.fixed[f] && Written(alphabet, x)
  }

  /** A value of one optional name can imitate what follows it, as far as a later
      optional name: whatever fixed names stand in between, that name and '='. */
  predicate Imitates(shape: Shape, alphabet: set<char>, u: string, v: string) {
    && u in shape.optional && v in shape.optional && Before(u, v) && Written(alphabet, v)
    && forall f | f in shape.fixed && Before(u, f) && Before(f, v) :: Spelled(shape, alphabet, f)
  }

  ghost predicate Ambiguous(shape: Shape, alphabet: set<char>) {
    '\0' in alphabet && '=' in alphabet && exists u, v :: Imitates(shape, alphabet, u, v)
  }

  /** keys are the names of m after p, in order. */
  predicate After(keys: seq<string>, m: Labels, p: string) {
    && Ascending(keys)
    && (forall k | k in keys :: k in m && Before(p, k))
    && (forall k | k in m && Before(p, k) :: k in keys)
  }

  lemma AfterNext(keys: seq<string>, m: Labels, p: string)
    requires After(keys, m, p) && keys != []
    ensures After(keys[1..], m, keys[0])
  {
    forall k | k in m && Before(keys[0], k)
      ensures k in keys[1..]
    {
      BeforeTransitive(p, keys[0], k);
      BeforeIrreflexive(keys[0]);
      assert keys == [keys[0]] + keys[1..];
    }
    assert forall k | k in keys[1..] :: k in keys;
  }

  lemma RenderHead(keys: seq<string>, m: Labels)
    requires keys != [] && forall k | k in keys :: k in m
    ensures Render(keys, m) == keys[0] + ['='] + (m[keys[0]] + "\0" + Render(keys[1..], m))
  {
    var k, v, r := keys[0], m[keys[0]], Render(keys[1..], m);
    assert k + "=" + v + "\0" + r == k + ['='] + (v + "\0" + r);
  }

  lemma LabelWithout(name: string, c: char)
    requires IsLabel(name) && !Letter(c) && !Digit(c)
    ensures Without(name, c)
  {
  }

  /** Two name lists that render alike begin with the same name. */
  lemma SameHead(a: seq<string>, m: Labels, b: seq<string>, n: Labels)
    requires (forall k | k in a :: k in m && IsLabel(k)) && (forall k | k in b :: k in n && IsLabel(k))
    requires a != [] && b != [] && Render(a, m) == Render(b, n)
    ensures a[0] == b[0]
    ensures m[a[0]] + "\0" + Render(a[1..], m) == n[b[0]] + "\0" + Render(b[1..], n)
  {
    hide *;
    RenderHead(a, m);
    RenderHead(b, n);
    assert a[0] in a && b[0] in b;
    NoEquals(a[0]);
    NoEquals(b[0]);
    SplitUnique(a[0], b[0], '=', m[a[0]] + "\0" + Render(a[1..], m), n[b[0]] + "\0" + Render(b[1..], n));
  }

  lemma NoEquals(name: string)
    requires IsLabel(name)
    ensures Without(name, '=')
  {
    LabelWithout(name, '=');
  }

  /** Past a fixed name the rest cannot look like everything from before it on. */
  lemma RestDiffers(u: string, a: seq<string>, m: Labels, b: seq<string>, n: Labels)
    requires (forall k | k in a :: k in m && IsLabel(k)) && (forall k | k in b :: k in n && IsLabel(k))
    requires Ascending(a) && After(b, n, u) && a != [] && a[0] in n && Before(u, a[0])
    ensures Render(a[1..], m) != Render(b, n)
  {
    assert a[0] in b;
    var rest := a[1..];
    if rest == [] {
      assert |Render(b, n)| > 0;
    } else {
      var i :| 0 <= i < |b| && b[i] == a[0];
      if i > 0 { BeforeTransitive(b[0], a[0], a[1]); }
      assert Before(b[0], a[1]);
      BeforeIrreflexive(b[0]);
      if Render(rest, m) == Render(b, n) {
        SameHead(rest, m, b, n);
      }
    }
  }

  /** What x imitates: x followed by NUL and everything after u reads like names
      of m after u, of which the fixed ones passed already are spelled out. */
  lemma {:induction false} ImitationFound(shape: Shape, alphabet: set<char>, u: string, a: seq<string>, m: Labels,
                                          x: string, b: seq<string>, n: Labels)
    requires Sane(shape) && Fits(shape, alphabet, m) && Fits(shape, alphabet, n) && u in shape.optional
    requires Ascending(a) && (forall k | k in a :: k in m && Before(u, k)) && After(b, n, u)
    requires forall f | f in shape.fixed && Before(u, f) && f !in a :: Spelled(shape, alphabet, f)
    requires Written(alphabet, x) && Render(a, m) == x + "\0" + Render(b, n)
    ensures '=' in alphabet && exists v :: Imitates(shape, alphabet, u, v)
    decreases |a|
  {
    hide IsLabel;
    var name, val, rest := a[0], m[a[0]], Render(a[1..], m);
    var x2 := NamePassed(name, val + "\0" + rest, x, Render(b, n));
    if name in shape.optional {
      forall f | f in shape.fixed && Before(u, f) && Before(f, name)
        ensures Spelled(shape, alphabet, f)
      {
        FirstIsLeast(a, f);
      }
      assert Imitates(shape, alphabet, u, name);
    } else {
      RestDiffers(u, a, m, b, n);
      var x3 := ValuePassed(val, rest, x2, Render(b, n));
      assert Spelled(shape, alphabet, name);
      forall f | f in shape.fixed && Before(u, f) && f !in a[1..]
        ensures Spelled(shape, alphabet, f)
      {
        assert a == [a[0]] + a[1..];
      }
      ImitationFound(shape, alphabet, u, a[1..], m, x3, b, n);
    }
  }

  lemma FirstIsLeast(a: seq<string>, f: string)
    requires a != [] && Ascending(a) && Before(f, a[0])
    ensures f !in a
  {
    BeforeIrreflexive(f);
    forall i | 0 <= i < |a|
      ensures a[i] != f
    {
      if i > 0 { BeforeTransitive(f, a[0], a[i]); }
    }
  }

  /** A text that ends in NUL does not end inside a name. */
  lemma NamePassed(name: string, after: string, x: string, end: string) returns (x2: string)
    requires IsLabel(name) && name + "=" + after == x + "\0" + end
    ensures x == name + "=" + x2 && after == x2 + "\0" + end
  {
    var s := name + "=" + after;
    assert s[|x|] == '\0' && s[|name|] == '=';
    assert forall i | 0 <= i < |name| :: s[i] == name[i] != '\0';
    assert |x| > |name|;
    assert x == s[..|x|];
    x2 := x[|name| + 1..];
    assert x == s[..|name| + 1] + x2 && s[..|name| + 1] == name + "=";
    assert after == s[|name| + 1..];
    assert s == name + "=" + x2 + "\0" + end;
  }

  /** Nor inside a value without NUL; and not right after it, if what follows is
      different. */
  lemma ValuePassed(val: string, rest: string, x2: string, end: string) returns (x3: string)
    requires Without(val, '\0') && val + "\0" + rest == x2 + "\0" + end && rest != end
    ensures x2 == val + "\0" + x3 && rest == x3 + "\0" + end
  {
    var s := val + "\0" + rest;
    assert s == x2 + "\0" + end;
    assert s[|x2|] == '\0';
    assert forall i | 0 <= i < |val| :: s[i] == val[i] != '\0';
    assert |x2| >= |val|;
    assert s[|val| + 1..] == rest && s[|x2| + 1..] == end;
    assert |x2| != |val|;
    x3 := x2[|val| + 1..];
    assert x2 == s[..|x2|];
    assert x2 == s[..|val| + 1] + x3 && s[..|val| + 1] == val + "\0";
    assert s == val + "\0" + x3 + "\0" + end;
  }

  /** If the values at u differ, the longer one imitates. */
  lemma LongerImitates(shape: Shape, alphabet: set<char>, u: string, a: seq<string>, m: Labels, v: string,
                       b: seq<string>, n: Labels, w: string)
    requires Sane(shape) && Fits(shape, alphabet, m) && Fits(shape, alphabet, n) && u in shape.optional
    requires After(a, m, u) && After(b, n, u) && Written(alphabet, w) && |w| > |v|
    requires v + "\0" + Render(a, m) == w + "\0" + Render(b, n)
    ensures Ambiguous(shape, alphabet)
  {
    var s := v + "\0" + Render(a, m);
    assert s == w + "\0" + Render(b, n);
    assert s[|v|] == w[|v|] == '\0';
    var x := w[|v| + 1..];
    assert w == s[..|w|] && s[..|v| + 1] == v + "\0";
    assert w == v + "\0" + x;
    assert s == v + "\0" + (x + "\0" + Render(b, n));
    assert Render(a, m) == s[|v| + 1..] == x + "\0" + Render(b, n);
    ImitationFound(shape, alphabet, u, a, m, x, b, n);
  }

  lemma SameValue(shape: Shape, alphabet: set<char>, u: string, a: seq<string>, m: Labels, b: seq<string>, n: Labels)
    requires Sane(shape) && Fits(shape, alphabet, m) && Fits(shape, alphabet, n) && !Ambiguous(shape, alphabet)
    requires u in m && u in n && After(a, m, u) && After(b, n, u)
    requires m[u] + "\0" + Render(a, m) == n[u] + "\0" + Render(b, n)
    ensures m[u] == n[u] && Render(a, m) == Render(b, n)
  {
    var v, w := m[u], n[u];
    if u in shape.fixed {
      SplitUnique(v, w, '\0', Render(a, m), Render(b, n));
    } else {
      assert |w| <= |v| by {
        if |w| > |v| { LongerImitates(shape, alphabet, u, a, m, v, b, n, w); }
      }
      assert |v| <= |w| by {
        if |v| > |w| { LongerImitates(shape, alphabet, u, b, n, w, a, m, v); }
      }
      var l, r := v + "\0" + Render(a, m), w + "\0" + Render(b, n);
      assert l[..|v|] == v && r[..|w|] == w;
      assert l[|v| + 1..] == Render(a, m) && r[|w| + 1..] == Render(b, n);
    }
  }

  lemma KeysAreLabels(shape: Shape, alphabet: set<char>, p: string, a: seq<string>, m: Labels)
    requires Sane(shape) && Fits(shape, alphabet, m) && After(a, m, p)
    ensures forall k | k in a :: k in m && IsLabel(k)
  {
    hide IsLabel;
  }

  /** The first names and their values agree, and so does the rest. */
  lemma HeadsAgree(shape: Shape, alphabet: set<char>, p: string, a: seq<string>, m: Labels, b: seq<string>, n: Labels)
    requires Sane(shape) && Fits(shape, alphabet, m) && Fits(shape, alphabet, n) && !Ambiguous(shape, alphabet)
    requires After(a, m, p) && After(b, n, p) && a != [] && b != []
    requires (forall k | k in a :: k in m) && (forall k | k in b :: k in n) && Render(a, m) == Render(b, n)
    ensures a[0] == b[0] && a[0] in m && a[0] in n && m[a[0]] == n[a[0]]
    ensures After(a[1..], m, a[0]) && After(b[1..], n, a[0])
    ensures (forall k | k in a[1..] :: k in m) && (forall k | k in b[1..] :: k in n)
    ensures Render(a[1..], m) == Render(b[1..], n)
  {
    hide *;
    assert a[0] in a && b[0] in b;
    assert (forall k | k in a[1..] :: k in a) && (forall k | k in b[1..] :: k in b);
    KeysAreLabels(shape, alphabet, p, a, m);
    KeysAreLabels(shape, alphabet, p, b, n);
    SameHead(a, m, b, n);
    AfterNext(a, m, p);
    AfterNext(b, n, p);
    SameValue(shape, alphabet, a[0], a[1..], m, b[1..], n);
  }

  lemma RenderEmpty(a: seq<string>, m: Labels)
    requires forall k | k in a :: k in m
    ensures Render(a, m) == "" <==> a == []
  {
  }

  lemma {:induction false} RenderInjective(shape: Shape, alphabet: set<char>, p: string, a: seq<string>, m: Labels,
                                           b: seq<string>, n: Labels)
    requires Sane(shape) && Fits(shape, alphabet, m) && Fits(shape, alphabet, n) && !Ambiguous(shape, alphabet)
    requires After(a, m, p) && After(b, n, p)
    requires (forall k | k in a :: k in m) && (forall k | k in b :: k in n) && Render(a, m) == Render(b, n)
    ensures a == b && forall k | k in a :: m[k] == n[k]
    decreases |a|
  {
    hide *;
    RenderEmpty(a, m);
    RenderEmpty(b, n);
    if a != [] {
      HeadsAgree(shape, alphabet, p, a, m, b, n);
      RenderInjective(shape, alphabet, a[0], a[1..], m, b[1..], n);
      assert a == [a[0]] + a[1..] && b == [b[0]] + b[1..];
    }
  }

  /** Over an alphabet that leaves no ambiguity two label sets of the sink have
      the same key exactly when they are equal. */
  lemma StreamKeyFaithful(shape: Shape, alphabet: set<char>, m: Labels, n: Labels)
    requires Sane(shape) && Fits(shape, alphabet, m) && Fits(shape, alphabet, n) && !Ambiguous(shape, alphabet)
    ensures StreamKeyOf(m) == StreamKeyOf(n) <==> m == n
  {
    hide Ambiguous;
    if StreamKeyOf(m) == StreamKeyOf(n) {
      AllAfter(shape, alphabet, m);
      AllAfter(shape, alphabet, n);
      RenderInjective(shape, alphabet, "", Names(m), m, Names(n), n);
      assert m.Keys == n.Keys;
    }
  }

  lemma AllAfter(shape: Shape, alphabet: set<char>, m: Labels)
    requires Sane(shape) && Fits(shape, alphabet, m)
    ensures After(Names(m), m, "")
  {
  }

  // ----- two label sets with one key

  lemma {:induction false} RenderJoin(a: seq<string>, b: seq<string>, m: Labels)
    requires (forall k | k in a :: k in m) && (forall k | k in b :: k in m)
    ensures Render(a + b, m) == Render(a, m) + Render(b, m)
  {
    if a == [] {
      assert a + b == b;
    } else {
      assert (a + b)[1..] == a[1..] + b;
      RenderJoin(a[1..], b, m);
      var h := a[0] + "=" + m[a[0]] + "\0";
      assert h + (Render(a[1..], m) + Render(b, m)) == h + Render(a[1..], m) + Render(b, m);
    }
  }

  lemma {:induction false} RenderSame(a: seq<string>, m: Labels, n: Labels)
    requires forall k | k in a :: k in m && k in n && m[k] == n[k]
    ensures Render(a, m) == Render(a, n)
  {
    if a != [] {
      RenderSame(a[1..], m, n);
    }
  }

  lemma RenderOne(k: string, m: Labels)
    requires k in m
    ensures Render([k], m) == k + "=" + m[k] + "\0"
  {
    assert [k][1..] == [];
    assert k + "=" + m[k] + "\0" + "" == k + "=" + m[k] + "\0";
  }

  lemma {:induction false} RenderWritten(alphabet: set<char>, keys: seq<string>, m: Labels)
    requires (forall k | k in keys :: k in m && Written(alphabet, k) && Written(alphabet, m[k]))
    requires '=' in alphabet && '\0' in alphabet
    ensures Written(alphabet, Render(keys, m)) && (keys != [] ==> EndsInNul(Render(keys, m)))
  {
    if keys != [] {
      RenderWritten(alphabet, keys[1..], m);
      assert Written(alphabet, keys[0]) && Written(alphabet, m[keys[0]]) by { assert keys[0] in keys; }
      assert Written(alphabet, keys[0] + "=" + m[keys[0]] + "\0" + Render(keys[1..], m));
      if keys[1..] == [] {
        RenderOne(keys[0], m);
        assert keys == [keys[0]];
      }
    }
  }

  predicate EndsInNul(s: string) {
    s != "" && s[|s| - 1] == '\0'
  }

  lemma AscendingJoin(a: seq<string>, b: seq<string>, k: string)
    requires Ascending(a) && Ascending(b)
    requires (forall x | x in a :: Before(x, k)) && (forall x | x in b :: Before(k, x))
    ensures Ascending(a + [k] + b) && Ascending(a + b) && Members(a + [k] + b) == Members(a) + {k} + Members(b)
    ensures Members(a + b) == Members(a) + Members(b)
  {
    forall i, j | 0 <= i < |a| && 0 <= j < |b|
      ensures Before(a[i], b[j])
    {
      BeforeTransitive(a[i], k, b[j]);
    }
    assert forall x :: x in Members(a + [k] + b) <==> x in Members(a) || x == k || x in Members(b);
    assert forall x :: x in Members(a + b) <==> x in Members(a) || x in Members(b);
  }

  /** A value of a fixed name, spelled out if one can be. */
  ghost function Chosen(shape: Shape, alphabet: set<char>, f: string): (x: string)
    requires Sane(shape) && f in shape.fixed
    ensures x in shape.fixed[f] && (Spelled(shape, alphabet, f) ==> Written(alphabet, x))
  {
    if Spelled(shape, alphabet, f) then var x :| x in shape.fixed[f] && Written(alphabet, x); x
    else var x :| x in shape.fixed[f]; x
  }

  /** The names of a label set around one of them. */
  lemma NamesAround(m: Labels, pre: seq<string>, k: string, post: seq<string>)
    requires Ascending(pre) && Ascending(post) && m.Keys == Members(pre) + {k} + Members(post)
    requires (forall x | x in pre :: Before(x, k)) && (forall x | x in post :: Before(k, x))
    ensures Names(m) == pre + [k] + post
    ensures forall x | x in pre + post :: x in m
    ensures StreamKeyOf(m) == Render(pre, m) + (k + "=" + m[k] + "\0") + Render(post, m)
  {
    AscendingJoin(pre, post, k);
    AscendingUnique(Names(m), pre + [k] + post);
    assert forall x | x in pre + [k] + post :: x in Members(pre + [k] + post);
    assert forall x | x in pre + post :: x in Members(pre) || x in Members(post);
    assert forall x | x in pre + [k] :: x in pre + [k] + post;
    RenderJoin(pre + [k], post, m);
    RenderJoin(pre, [k], m);
    RenderOne(k, m);
  }

  /** The fixed names before, between and after two others. */
  predicate Around(fixed: Labels, pre: seq<string>, u: string, mid: seq<string>, v: string, post: seq<string>) {
    && u !in fixed && v !in fixed && Before(u, v)
    && Ascending(pre) && Ascending(mid) && Ascending(post)
    && (forall f | f in pre :: f in fixed && Before(f, u))
    && (forall f | f in mid :: f in fixed && Before(u, f) && Before(f, v))
    && (forall f | f in post :: f in fixed && Before(v, f))
    && (forall f | f in fixed :: f in pre || f in mid || f in post)
  }

  lemma FindAround(fixed: Labels, u: string, v: string) returns (pre: seq<string>, mid: seq<string>, post: seq<string>)
    requires u !in fixed && v !in fixed && Before(u, v)
    ensures Around(fixed, pre, u, mid, v, post)
  {
    pre := Listing(set f | f in fixed && Before(f, u));
    mid := Listing(set f | f in fixed && Before(u, f) && Before(f, v));
    post := Listing(set f | f in fixed && Before(v, f));
    assert forall f | f in pre :: f in Members(pre);
    assert forall f | f in mid :: f in Members(mid);
    assert forall f | f in post :: f in Members(post);
    forall f | f in fixed
      ensures f in pre || f in mid || f in post
    {
      BeforeTotal(f, u);
      BeforeTotal(f, v);
      assert f in Members(pre) || f in Members(mid) || f in Members(post);
    }
  }

  lemma NotAround(fixed: Labels, pre: seq<string>, u: string, mid: seq<string>, v: string, post: seq<string>)
    requires Around(fixed, pre, u, mid, v, post)
    ensures u != v && (forall f | f in pre + mid + post :: f in fixed && f != u && f != v)
    ensures Ascending(mid + post) && Ascending(mid + [v] + post)
    ensures forall f | f in mid + [v] + post :: Before(u, f)
    ensures fixed.Keys == Members(pre) + Members(mid + post)
    ensures Members(mid + [v] + post) == Members(mid + post) + {v}
  {
    BeforeIrreflexive(u);
    AscendingJoin(mid, post, v);
    forall f | f in post
      ensures Before(u, f)
    {
      BeforeTransitive(u, v, f);
    }
  }

  /** The key with u alone. */
  lemma KeyWithOne(fixed: Labels, pre: seq<string>, u: string, mid: seq<string>, v: string, post: seq<string>,
                   x: string)
    requires Around(fixed, pre, u, mid, v, post)
    ensures forall k | k in pre + mid + post :: k in fixed
    ensures StreamKeyOf(fixed[u := x])
            == Render(pre, fixed) + (u + "=" + x + "\0") + (Render(mid, fixed) + Render(post, fixed))
  {
    NotAround(fixed, pre, u, mid, v, post);
    var m := fixed[u := x];
    assert forall f | f in mid + post :: f in mid + [v] + post;
    assert forall f | f in pre + mid + post :: f in pre || f in mid || f in post;
    NamesAround(m, pre, u, mid + post);
    hide StreamKeyOf;
    hide Before;
    hide Ascending;
    RenderJoin(mid, post, m);
    RenderSame(pre, m, fixed);
    RenderSame(mid, m, fixed);
    RenderSame(post, m, fixed);
  }

  /** The key with u and v. */
  lemma KeyWithBoth(fixed: Labels, pre: seq<string>, u: string, mid: seq<string>, v: string, post: seq<string>,
                    x: string, y: string)
    requires Around(fixed, pre, u, mid, v, post)
    ensures forall k | k in pre + mid + post :: k in fixed
    ensures StreamKeyOf(fixed[u := x][v := y])
            == Render(pre, fixed) + (u + "=" + x + "\0")
               + ((Render(mid, fixed) + (v + "=" + y + "\0")) + Render(post, fixed))
  {
    NotAround(fixed, pre, u, mid, v, post);
    var n := fixed[u := x][v := y];
    assert forall f | f in pre + mid + post :: f in pre || f in mid || f in post;
    assert n.Keys == Members(pre) + {u} + Members(mid + [v] + post);
    NamesAround(n, pre, u, mid + [v] + post);
    hide StreamKeyOf;
    hide Before;
    hide Ascending;
    RenderJoin(mid + [v], post, n);
    RenderJoin(mid, [v], n);
    RenderOne(v, n);
    RenderSame(pre, n, fixed);
    RenderSame(mid, n, fixed);
    RenderSame(post, n, fixed);
  }

  /** What one optional value has to be to imitate all up to another. */
  lemma Collision(shape: Shape, alphabet: set<char>) returns (m: Labels, n: Labels)
    requires Sane(shape) && Ambiguous(shape, alphabet)
    ensures Fits(shape, alphabet, m) && Fits(shape, alphabet, n) && m != n && StreamKeyOf(m) == StreamKeyOf(n)
  {
    var u, v :| Imitates(shape, alphabet, u, v);
    var fixed := FixedValues(shape, alphabet);
    var pre, mid, post := FindAround(fixed, u, v);
    var b := Between(shape, alphabet, fixed, pre, u, mid, v, post);
    var t := "=\0" + b;
    m := fixed[u := t + v + "=="];
    n := fixed[u := "="][v := t[..|t| - 1]];
    hide Ambiguous;
    hide Imitates;
    hide StreamKeyOf;
    hide Render;
    NotAround(fixed, pre, u, mid, v, post);
    MembersFit(shape, alphabet, fixed, u, t + v + "==", v, t);
    KeyWithOne(fixed, pre, u, mid, v, post, t + v + "==");
    KeyWithBoth(fixed, pre, u, mid, v, post, "=", t[..|t| - 1]);
    SameText(Render(pre, fixed), u, b, v, Render(post, fixed), t);
  }

  lemma FixedValues(shape: Shape, alphabet: set<char>) returns (fixed: Labels)
    requires Sane(shape)
    ensures fixed.Keys == shape.fixed.Keys
    ensures forall f | f in fixed :: fixed[f] in shape.fixed[f]
                                     && (Spelled(shape, alphabet, f) ==> Written(alphabet, fixed[f]))
  {
    fixed := map f | f in shape.fixed :: Chosen(shape, alphabet, f);
  }

  lemma Between(shape: Shape, alphabet: set<char>, fixed: Labels, pre: seq<string>, u: string, mid: seq<string>,
                v: string, post: seq<string>) returns (b: string)
    requires Imitates(shape, alphabet, u, v) && Around(fixed, pre, u, mid, v, post)
    requires fixed.Keys == shape.fixed.Keys && '=' in alphabet && '\0' in alphabet
    requires forall f | f in fixed :: Spelled(shape, alphabet, f) ==> Written(alphabet, fixed[f])
    ensures (forall f | f in mid :: f in fixed) && b == Render(mid, fixed)
    ensures Written(alphabet, "=\0" + b) && EndsInNul("=\0" + b)
  {
    b := Render(mid, fixed);
    RenderWritten(alphabet, mid, fixed);
  }

  lemma MembersFit(shape: Shape, alphabet: set<char>, fixed: Labels, u: string, x: string, v: string, t: string)
    requires Sane(shape) && u in shape.optional && v in shape.optional && u != v && '=' in alphabet
    requires fixed.Keys == shape.fixed.Keys && forall f | f in fixed :: fixed[f] in shape.fixed[f]
    requires Written(alphabet, t) && Written(alphabet, v) && |t| >= 2 && x == t + v + "=="
    ensures Fits(shape, alphabet, fixed[u := x]) && Fits(shape, alphabet, fixed[u := "="][v := t[..|t| - 1]])
    ensures fixed[u := x] != fixed[u := "="][v := t[..|t| - 1]]
  {
    assert forall c | c in t[..|t| - 1] :: c in t;
    assert forall c | c in x :: c in t || c in v || c == '=';
    assert v !in fixed[u := x];
  }

  lemma SameText(p: string, u: string, b: string, v: string, q: string, t: string)
    requires t == "=\0" + b && EndsInNul(t)
    ensures p + (u + "=" + (t + v + "==") + "\0") + (b + q)
            == p + (u + "=" + "=" + "\0") + ((b + (v + "=" + t[..|t| - 1] + "\0")) + q)
  {
    var whole := p + u + "=" + t + v + "=" + t + q;
    assert t[..|t| - 1] + "\0" == t;
    assert "=" + "\0" + b == t;
    assert p + (u + "=" + (t + v + "==") + "\0") + (b + q) == p + u + "=" + t + v + "=" + ("=" + "\0" + b) + q;
    assert p + (u + "=" + "=" + "\0") + ((b + (v + "=" + t[..|t| - 1] + "\0")) + q)
        == p + u + "=" + ("=" + "\0" + b) + v + "=" + (t[..|t| - 1] + "\0") + q;
  }

  /** The keys of the sink's label sets, values written in the alphabet, tell them
      apart exactly if no value can imitate. */
  lemma FaithfulIffUnambiguous(shape: Shape, alphabet: set<char>)
    requires Sane(shape)
    ensures (forall m: Labels, n: Labels | Fits(shape, alphabet, m) && Fits(shape, alphabet, n)
                                           && StreamKeyOf(m) == StreamKeyOf(n) :: m == n)
            <==> !Ambiguous(shape, alphabet)
  {
    if Ambiguous(shape, alphabet) {
      var m, n := Collision(shape, alphabet);
    } else {
      forall m: Labels, n: Labels | Fits(shape, alphabet, m) && Fits(shape, alphabet, n)
                                    && StreamKeyOf(m) == StreamKeyOf(n)
        ensures m == n
      {
        StreamKeyFaithful(shape, alphabet, m, n);
      }
    }
  }
}
