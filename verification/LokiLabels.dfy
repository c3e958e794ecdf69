/** Loki stream labels: valid label names, and a stream key that identifies a
    label set. Strings are sequences of code points. */
module LokiLabels {

  // ----- label names

  predicate Letter(c: char) {
    'a' <= c <= 'z' || 'A' <= c <= 'Z' || c == '_'
  }

  predicate Digit(c: char) {
    '0' <= c <= '9'
  }

  /** A valid label name: letters, digits and underscores, no leading digit. */
  predicate IsLabel(s: string) {
    s != "" && Letter(s[0]) && forall i | 0 <= i < |s| :: Letter(s[i]) || Digit(s[i])
  }

  function Clean(c: char, first: bool): char {
    if Letter(c) || (Digit(c) && !first) then c else '_'
  }

  function Sanitized(k: string): string {
    if k == "" then "_" else seq(|k|, i requires 0 <= i < |k| => Clean(k[i], i == 0))
  }

  method SanitizeLabel(k: string) returns (r: string)
    ensures r == Sanitized(k)
    ensures IsLabel(r)
    ensures k == "" ==> r == "_"
    ensures k != "" ==>
              && |r| == |k|
              && forall i | 0 <= i < |k| ::
                   r[i] == if 'a' <= k[i] <= 'z' || 'A' <= k[i] <= 'Z' || k[i] == '_' || ('0' <= k[i] <= '9' && i > 0)
                           then k[i] else '_'
  {
    r := "";
    for i := 0 to |k|
      invariant |r| == i && forall j | 0 <= j < i :: r[j] == Clean(k[j], j == 0)
    {
      r := r + [Clean(k[i], i == 0)];
    }
    if r == "" {
      r := "_";
    }
  }

  /** Sanitizing yields a label, and leaves exactly the labels unchanged. */
  lemma SanitizedIsLabel(k: string)
    ensures IsLabel(Sanitized(k))
    ensures Sanitized(k) == k <==> IsLabel(k)
    ensures '=' !in Sanitized(k)
  {
  }

  // ----- order on keys

  predicate Before(a: string, b: string) {
    b != "" && (a == "" || a[0] < b[0] || (a[0] == b[0] && Before(a[1..], b[1..])))
  }

  lemma {:induction false} BeforeTotal(a: string, b: string)
    ensures Before(a, b) || a == b || Before(b, a)
    ensures !(Before(a, b) && Before(b, a)) && !Before(a, a)
  {
    if a != "" && b != "" && a[0] == b[0] {
      BeforeTotal(a[1..], b[1..]);
      assert a[1..] == b[1..] ==> a == [a[0]] + a[1..] && b == [b[0]] + b[1..];
    }
    if a != "" {
      BeforeIrreflexive(a);
    }
  }

  lemma {:induction false} BeforeIrreflexive(a: string)
    ensures !Before(a, a)
  {
    if a != "" { BeforeIrreflexive(a[1..]); }
  }

  lemma {:induction false} BeforeTransitive(a: string, b: string, c: string)
    requires Before(a, b) && Before(b, c)
    ensures Before(a, c)
  {
    if a != "" && a[0] == b[0] == c[0] {
      BeforeTransitive(a[1..], b[1..], c[1..]);
    }
  }

  predicate Ascending(keys: seq<string>) {
    forall i, j | 0 <= i < j < |keys| :: Before(keys[i], keys[j])
  }

  function Insert(keys: seq<string>, k: string): seq<string> {
    if keys == [] || Before(k, keys[0]) then [k] + keys else [keys[0]] + Insert(keys[1..], k)
  }

  /** The sort the key goes through. */
  function Sorted(keys: seq<string>): seq<string> {
    if keys == [] then [] else Insert(Sorted(keys[1..]), keys[0])
  }

  ghost function Members(keys: seq<string>): set<string> {
    set k | k in keys
  }

  lemma {:induction false} InsertAscends(keys: seq<string>, k: string)
    requires Ascending(keys) && k !in keys
    ensures Ascending(Insert(keys, k)) && Members(Insert(keys, k)) == Members(keys) + {k}
  {
    if keys == [] {
    } else if Before(k, keys[0]) {
      forall j | 0 <= j < |keys|
        ensures Before(k, keys[j])
      {
        if j > 0 { BeforeTransitive(k, keys[0], keys[j]); }
      }
    } else {
      BeforeTotal(k, keys[0]);
      var rest := Insert(keys[1..], k);
      InsertAscends(keys[1..], k);
      forall j | 0 <= j < |rest|
        ensures Before(keys[0], rest[j])
      {
        assert rest[j] in Members(rest);
        assert rest[j] == k || rest[j] in keys[1..];
      }
      assert keys == [keys[0]] + keys[1..];
    }
  }

  predicate Distinct(keys: seq<string>) {
    forall i, j | 0 <= i < j < |keys| :: keys[i] != keys[j]
  }

  lemma {:induction false} SortedAscends(keys: seq<string>)
    requires Distinct(keys)
    ensures Ascending(Sorted(keys)) && Members(Sorted(keys)) == Members(keys)
  {
    if keys != [] {
      SortedAscends(keys[1..]);
      assert keys[0] !in keys[1..];
      assert keys[0] !in Members(Sorted(keys[1..]));
      InsertAscends(Sorted(keys[1..]), keys[0]);
      assert keys == [keys[0]] + keys[1..];
    }
  }

  lemma MembersEmpty(a: seq<string>)
    ensures Members(a) == {} <==> a == []
  {
    if a != [] {
      assert a[0] in Members(a);
    }
  }

  /** An ascending list is determined by its members. */
  lemma {:induction false} AscendingUnique(a: seq<string>, b: seq<string>)
    requires Ascending(a) && Ascending(b) && Members(a) == Members(b)
    ensures a == b
  {
    MembersEmpty(a);
    MembersEmpty(b);
    if a != [] {
      assert a[0] in Members(b) && b[0] in Members(a);
      BeforeTotal(a[0], b[0]);
      var i :| 0 <= i < |b| && b[i] == a[0];
      var j :| 0 <= j < |a| && a[j] == b[0];
      assert a[0] == b[0];
      forall k
        ensures k in Members(a[1..]) <==> k in Members(b[1..])
      {
        assert k in Members(a[1..]) ==> Before(a[0], k);
        assert k in Members(b[1..]) ==> Before(b[0], k);
        BeforeIrreflexive(k);
        assert a == [a[0]] + a[1..] && b == [b[0]] + b[1..];
        assert k in Members(a) <==> k in Members(b);
      }
      AscendingUnique(a[1..], b[1..]);
      assert a == [a[0]] + a[1..] && b == [b[0]] + b[1..];
    }
  }

  // ----- the stream key

  type Labels = map<string, string>

  function Render(keys: seq<string>, labels: Labels): string
    requires forall k | k in keys :: k in labels
  {
    if keys == [] then "" else keys[0] + "=" + labels[keys[0]] + "\0" + Render(keys[1..], labels)
  }

  lemma {:induction false} Listing(all: set<string>) returns (keys: seq<string>)
    ensures Ascending(keys) && Members(keys) == all
  {
    if all == {} {
      keys := [];
    } else {
      var k :| k in all;
      var rest := Listing(all - {k});
      assert k !in rest by { assert k !in Members(rest); }
      InsertAscends(rest, k);
      keys := Insert(rest, k);
    }
  }

  /** The names of a label set in order. */
  ghost function Names(labels: Labels): (keys: seq<string>)
    ensures Ascending(keys) && Members(keys) == labels.Keys
    ensures forall k | k in keys :: k in labels
    ensures forall k | k in labels :: k in keys
  {
    assert exists keys :: Ascending(keys) && Members(keys) == labels.Keys by { var l := Listing(labels.Keys); }
    var keys :| Ascending(keys) && Members(keys) == labels.Keys;
    assert forall k | k in keys :: k in Members(keys);
    assert forall k | k in labels :: k in Members(keys);
    keys
  }

  /** The key of a label set: name=value pairs in name order, each ended by NUL. */
  ghost function StreamKeyOf(labels: Labels): string {
    Render(Names(labels), labels)
  }

  /** Whatever order the map yields its keys in, the key comes out the same. */
  method StreamKey(labels: Labels) returns (key: string)
    ensures key == StreamKeyOf(labels)
  {
    var keys: seq<string> := [];
    var todo := labels.Keys;
    while todo != {}
      invariant Distinct(keys) && Members(keys) !! todo && Members(keys) + todo == labels.Keys
      decreases todo
    {
      var k :| k in todo;
      assert k !in keys by { assert k !in Members(keys); }
      assert Members(keys + [k]) == Members(keys) + {k};
      keys, todo := keys + [k], todo - {k};
    }
    SortedAscends(keys);
    var sorted := Sorted(keys);
    AscendingUnique(Names(labels), sorted);
    key := Joined(sorted, labels);
  }

  method Joined(keys: seq<string>, labels: Labels) returns (s: string)
    requires forall k | k in keys :: k in labels
    ensures s == Render(keys, labels)
  {
    s := "";
    for i := 0 to |keys|
      invariant s + Render(keys[i..], labels) == Render(keys, labels)
    {
      ghost var before, pair := s, keys[i] + "=" + labels[keys[i]] + "\0";
      s := s + (keys[i] + "=" + labels[keys[i]] + "\0");
      assert keys[i..][1..] == keys[i + 1..];
      assert before + (pair + Render(keys[i + 1..], labels)) == s + Render(keys[i + 1..], labels);
    }
    assert s + Render(keys[|keys|..], labels) == s;
  }
}
