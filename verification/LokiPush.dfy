/** The Loki push: the structured metadata of a record, and records grouped into
    streams. Map iteration order is arbitrary throughout. */
module LokiPush {
  import opened LokiLabels
  import opened LokiKeys
  import opened LokiShapes

  // ----- structured metadata

  function Reserved(r: Record): Labels {
    var m1 := Put(Put(map[], "severity", r.severity), "deployment_id", r.deploymentID);
    var m2 := Put(Put(m1, "deployment_instance_id", r.deploymentInstanceID), "region", r.region);
    Put(Put(m2, "plugin_id", r.pluginID), "snapshot_id", r.snapshotID)
  }

  /** The six fields, each under its own name unless it is empty, and nothing
      else. */
  lemma ReservedFields(r: Record)
    ensures var m := Reserved(r);
            && (forall k | k in m ::
                  k in {"severity", "deployment_id", "deployment_instance_id", "region", "plugin_id", "snapshot_id"})
            && (if r.severity == "" then "severity" !in m else "severity" in m && m["severity"] == r.severity)
            && (if r.deploymentID == "" then "deployment_id" !in m
                else "deployment_id" in m && m["deployment_id"] == r.deploymentID)
            && (if r.deploymentInstanceID == "" then "deployment_instance_id" !in m
                else "deployment_instance_id" in m && m["deployment_instance_id"] == r.deploymentInstanceID)
            && (if r.region == "" then "region" !in m else "region" in m && m["region"] == r.region)
            && (if r.pluginID == "" then "plugin_id" !in m else "plugin_id" in m && m["plugin_id"] == r.pluginID)
            && (if r.snapshotID == "" then "snapshot_id" !in m
                else "snapshot_id" in m && m["snapshot_id"] == r.snapshotID)
  {
    hide Put;
    var m1 := Put(map[], "severity", r.severity);
    var m2 := Put(m1, "deployment_id", r.deploymentID);
    var m3 := Put(m2, "deployment_instance_id", r.deploymentInstanceID);
    var m4 := Put(m3, "region", r.region);
    var m5 := Put(m4, "plugin_id", r.pluginID);
    PutIs(map[], "severity", r.severity);
    PutIs(m1, "deployment_id", r.deploymentID);
    PutIs(m2, "deployment_instance_id", r.deploymentInstanceID);
    PutIs(m3, "region", r.region);
    PutIs(m4, "plugin_id", r.pluginID);
    PutIs(m5, "snapshot_id", r.snapshotID);
  }

  function Digits(n: nat): (r: string)
    ensures r != ""
  {
    var last := [('0' as int + n % 10) as char];
    if n < 10 then last else Digits(n / 10) + last
  }

  /** The number a decimal numeral stands for. */
  function Numeral(s: string): int {
    if s == "" then 0 else Numeral(s[..|s| - 1]) * 10 + (s[|s| - 1] as int - '0' as int)
  }

  /** Digits is the decimal numeral without leading zeros. */
  lemma {:induction false} DigitsAreDecimal(n: nat)
    ensures Numeral(Digits(n)) == n && (n > 0 ==> Digits(n)[0] != '0')
    ensures forall i | 0 <= i < |Digits(n)| :: '0' <= Digits(n)[i] <= '9'
  {
    var s := Digits(n);
    if n >= 10 {
      DigitsAreDecimal(n / 10);
      assert s[..|s| - 1] == Digits(n / 10);
    } else {
      assert s[..0] == "";
    }
  }

  lemma {:induction false} DigitsInjective(a: nat, b: nat)
    requires Digits(a) == Digits(b)
    ensures a == b
    decreases a + b
  {
    var x, y := Digits(a), Digits(b);
    assert x[|x| - 1] == ('0' as int + a % 10) as char && y[|y| - 1] == ('0' as int + b % 10) as char;
    if a >= 10 && b >= 10 {
      assert x[..|x| - 1] == Digits(a / 10) && y[..|y| - 1] == Digits(b / 10);
      DigitsInjective(a / 10, b / 10);
    }
  }

  function Suffixed(key: string, i: nat): string {
    key + "_" + Digits(i)
  }

  lemma SuffixedIs(key: string, i: nat)
    ensures Suffixed(key, i) == key + "_" + Digits(i)
  {
  }

  lemma SuffixedInjective(key: string, i: nat, j: nat)
    requires Suffixed(key, i) == Suffixed(key, j)
    ensures i == j
  {
    assert Suffixed(key, i)[|key| + 1..] == Digits(i);
    assert Suffixed(key, j)[|key| + 1..] == Digits(j);
    DigitsInjective(i, j);
  }

  /** key if it is free, else the first free of key_2, key_3, and so on. The
      search ends: every name it passes over is a different key of the map, so
      after |m| + 1 probes at most one is free. */
  method UniqueKey(m: Labels, key: string) returns (free: string, probes: nat)
    ensures free !in m && probes <= |m| + 1
    ensures free == key || exists i :: 2 <= i && free == Suffixed(key, i) == key + "_" + Digits(i)
                                       && key in m && forall j | 2 <= j < i :: Suffixed(key, j) in m
  {
    if key !in m {
      return key, 1;
    }
    hide Suffixed;
    var i := 2;
    PassedNames(m, key, i);
    while true
      invariant 2 <= i <= |m| + 1 && forall j | 2 <= j < i :: Suffixed(key, j) in m
      decreases |m| + 1 - i
    {
      var alt := Suffixed(key, i);
      SuffixedIs(key, i);
      if alt !in m {
        return alt, i;
      }
      i := i + 1;
      PassedNames(m, key, i);
    }
  }

  /** The names passed over are distinct keys of the map, key among them. */
  lemma PassedNames(m: Labels, key: string, i: nat)
    requires i >= 2 && key in m && forall j | 2 <= j < i :: Suffixed(key, j) in m
    ensures i <= |m| + 1
  {
    var passed := Passed(m, key, i);
    SubsetSize(passed, m.Keys);
  }

  ghost function Passed(m: Labels, key: string, i: nat): (r: set<string>)
    requires i >= 2 && key in m && forall j | 2 <= j < i :: Suffixed(key, j) in m
    ensures r <= m.Keys && |r| == i - 1
    ensures forall n | n in r :: n == key || exists j :: 2 <= j < i && n == Suffixed(key, j)
  {
    if i == 2 then {key}
    else
      var before := Passed(m, key, i - 1);
      assert Suffixed(key, i - 1) !in before by { SuffixedIsNew(before, key, i - 1); }
      before + {Suffixed(key, i - 1)}
  }

  lemma SuffixedIsNew(before: set<string>, key: string, i: nat)
    requires forall n | n in before :: n == key || exists j :: 2 <= j < i && n == Suffixed(key, j)
    ensures Suffixed(key, i) !in before
  {
    assert |Suffixed(key, i)| > |key|;
    forall j | 2 <= j < i
      ensures Suffixed(key, j) != Suffixed(key, i)
    {
      if Suffixed(key, j) == Suffixed(key, i) { SuffixedInjective(key, j, i); }
    }
  }

  lemma {:induction false} SubsetSize<T>(a: set<T>, b: set<T>)
    requires a <= b
    ensures |a| <= |b|
    decreases a
  {
    if a != {} {
      var x :| x in a;
      SubsetSize(a - {x}, b - {x});
    }
  }

  /** An attribute's entry goes by its sanitized name, numbered if need be. */
  ghost predicate NamedAfter(attribute: string, name: string) {
    name == Sanitized(attribute) || exists i :: 2 <= i && name == Suffixed(Sanitized(attribute), i)
  }

  /** Nothing is overwritten: reserved entries keep their values, and every
      attribute has an entry of its own with its value. place says which. */
  ghost predicate Complete(reserved: Labels, attributes: map<string, string>, meta: Labels,
                           place: map<string, string>) {
    && place.Keys == attributes.Keys
    && (forall k | k in reserved :: k in meta && meta[k] == reserved[k])
    && (forall k | k in attributes :: place[k] in meta && place[k] !in reserved && meta[place[k]] == attributes[k])
    && (forall j, k | j in attributes && k in attributes && j != k :: place[j] != place[k])
    && (forall k | k in attributes :: NamedAfter(k, place[k]))
    && |meta| == |reserved| + |attributes|
  }

  lemma CompleteGrows(reserved: Labels, done: map<string, string>, meta: Labels, place: map<string, string>,
                      k: string, v: string, free: string)
    requires Complete(reserved, done, meta, place) && k !in done && free !in meta && NamedAfter(k, free)
    ensures Complete(reserved, done[k := v], meta[free := v], place[k := free])
  {
    hide NamedAfter;
  }

  /** The attributes already placed. */
  ghost function Rest(m: map<string, string>, todo: set<string>): map<string, string> {
    m - todo
  }

  lemma PlaceOne(reserved: Labels, attributes: map<string, string>, todo: set<string>, meta: Labels,
                 place: map<string, string>, k: string, free: string)
    requires Complete(reserved, Rest(attributes, todo), meta, place) && k in todo && todo <= attributes.Keys
    requires free !in meta && NamedAfter(k, free)
    ensures Complete(reserved, Rest(attributes, todo - {k}), meta[free := attributes[k]], place[k := free])
  {
    assert Rest(attributes, todo - {k}) == Rest(attributes, todo)[k := attributes[k]];
    CompleteGrows(reserved, Rest(attributes, todo), meta, place, k, attributes[k], free);
  }

  lemma NonePlaced(reserved: Labels, attributes: map<string, string>)
    ensures Complete(reserved, Rest(attributes, attributes.Keys), reserved, map[])
  {
  }

  method StructuredMetadata(r: Record) returns (meta: Labels)
    ensures exists place :: Complete(Reserved(r), r.attributes, meta, place)
  {
    hide Reserved;
    hide Complete;
    meta := Reserved(r);
    ghost var place: map<string, string> := map[];
    NonePlaced(Reserved(r), r.attributes);
    var todo := r.attributes.Keys;
    while todo != {}
      invariant todo <= r.attributes.Keys
      invariant Complete(Reserved(r), Rest(r.attributes, todo), meta, place)
      decreases todo
    {
      var k :| k in todo;
      var name := SanitizeLabel(k);
      var free, probes := UniqueKey(meta, name);
      PlaceOne(Reserved(r), r.attributes, todo, meta, place, k, free);
      meta, todo := meta[free := r.attributes[k]], todo - {k};
      place := place[k := free];
    }
    assert Rest(r.attributes, todo) == r.attributes;
  }

  // ----- grouping into streams

  datatype Entry = Entry(time: int, message: string, meta: Labels)

  datatype Stream = Stream(labels: Labels, values: seq<Entry>)

  /** The entries whose label set has the given key, in batch order. */
  ghost function Selected(labels: seq<Labels>, entries: seq<Entry>, key: string): seq<Entry>
    requires |labels| == |entries|
  {
    if labels == [] then []
    else
      var n := |labels| - 1;
      Selected(labels[..n], entries[..n], key) + if StreamKeyOf(labels[n]) == key then [entries[n]] else []
  }

  /** The streams of a batch: one per key that occurs, holding the entries with
      that key in batch order, under the labels of one of its records. */
  ghost predicate Grouped(labels: seq<Labels>, entries: seq<Entry>, streams: map<string, Stream>) {
    && |labels| == |entries|
    && (forall i | 0 <= i < |labels| :: StreamKeyOf(labels[i]) in streams)
    && forall key | key in streams ::
         && streams[key].values == Selected(labels, entries, key)
         && exists i :: 0 <= i < |labels| && StreamKeyOf(labels[i]) == key && streams[key].labels == labels[i]
  }

  /** A record with its labels and the entry it becomes. */
  ghost predicate Entered(extra: Labels, r: Record, labels: Labels, e: Entry) {
    && LabelsOf(BaseLabels(r), extra, labels) && e.time == r.time && e.message == r.message
    && exists place :: Complete(Reserved(r), r.attributes, e.meta, place)
  }

  /** The batch as label sets and entries, record by record. */
  ghost predicate EnteredAll(extra: Labels, batch: seq<Record>, labels: seq<Labels>, entries: seq<Entry>) {
    |labels| == |entries| == |batch| && forall i | 0 <= i < |batch| :: Entered(extra, batch[i], labels[i], entries[i])
  }

  method Group(extra: Labels, batch: seq<Record>) returns (streams: map<string, Stream>)
    ensures exists labels, entries :: EnteredAll(extra, batch, labels, entries) && Grouped(labels, entries, streams)
  {
    hide LabelsOf;
    hide BaseLabels;
    hide Reserved;
    hide Complete;
    hide Grouped;
    hide StreamKeyOf;
    streams := map[];
    ghost var labels: seq<Labels>, entries: seq<Entry> := [], [];
    NothingGrouped();
    for n := 0 to |batch|
      invariant |labels| == |entries| == n && Grouped(labels, entries, streams)
      invariant forall i | 0 <= i < n :: Entered(extra, batch[i], labels[i], entries[i])
    {
      var r := batch[n];
      var mine := LabelsFor(extra, r);
      var key := StreamKey(mine);
      var st := if key in streams then streams[key] else Stream(mine, []);
      var meta := StructuredMetadata(r);
      var e := Entry(r.time, r.message, meta);
      assert Entered(extra, r, mine, e);
      GroupGrows(labels, entries, streams, mine, e, st);
      streams := streams[key := Stream(st.labels, st.values + [e])];
      labels, entries := labels + [mine], entries + [e];
    }
  }

  lemma NothingGrouped()
    ensures Grouped([], [], map[])
  {
  }

  /** values are the entries at these places, in this order, and they are the
      places of the label sets with the key. */
  ghost predicate InOrder(labels: seq<Labels>, entries: seq<Entry>, key: string, values: seq<Entry>, at: seq<nat>)
    requires |labels| == |entries|
  {
    && |at| == |values| && (forall j | 0 <= j < |at| :: at[j] < |entries| && entries[at[j]] == values[j])
    && (forall i, j | 0 <= i < j < |at| :: at[i] < at[j])
    && (forall i: nat :: i in at <==> i < |labels| && StreamKeyOf(labels[i]) == key)
  }

  lemma InOrderGrows(labels: seq<Labels>, entries: seq<Entry>, key: string, values: seq<Entry>, at: seq<nat>)
    requires |labels| == |entries| > 0
    requires InOrder(labels[..|labels| - 1], entries[..|labels| - 1], key, values, at)
    ensures var n := |labels| - 1;
            if StreamKeyOf(labels[n]) == key then InOrder(labels, entries, key, values + [entries[n]], at + [n])
            else InOrder(labels, entries, key, values, at)
  {
    hide StreamKeyOf;
  }

  /** The entries of a stream are those of its records, in batch order: at lists
      their places. */
  lemma {:induction false} SelectedInOrder(labels: seq<Labels>, entries: seq<Entry>, key: string)
    returns (at: seq<nat>)
    requires |labels| == |entries|
    ensures InOrder(labels, entries, key, Selected(labels, entries, key), at)
  {
    at := [];
    if labels != [] {
      hide InOrder;
      hide StreamKeyOf;
      var n := |labels| - 1;
      at := SelectedInOrder(labels[..n], entries[..n], key);
      InOrderGrows(labels, entries, key, Selected(labels[..n], entries[..n], key), at);
      if StreamKeyOf(labels[n]) == key {
        at := at + [n];
      } else {
        assert Selected(labels, entries, key) == Selected(labels[..n], entries[..n], key);
      }
    }
  }

  lemma {:induction false} NoneSelected(labels: seq<Labels>, entries: seq<Entry>, key: string)
    requires |labels| == |entries| && forall i | 0 <= i < |labels| :: StreamKeyOf(labels[i]) != key
    ensures Selected(labels, entries, key) == []
  {
    if labels != [] {
      NoneSelected(labels[..|labels| - 1], entries[..|labels| - 1], key);
    }
  }

  lemma SelectedGrows(labels: seq<Labels>, entries: seq<Entry>, mine: Labels, e: Entry, key: string)
    requires |labels| == |entries|
    ensures Selected(labels + [mine], entries + [e], key)
            == Selected(labels, entries, key) + if StreamKeyOf(mine) == key then [e] else []
  {
  }

  lemma GroupGrows(labels: seq<Labels>, entries: seq<Entry>, streams: map<string, Stream>, mine: Labels,
                   e: Entry, st: Stream)
    requires Grouped(labels, entries, streams)
    requires st == if StreamKeyOf(mine) in streams then streams[StreamKeyOf(mine)] else Stream(mine, [])
    ensures Grouped(labels + [mine], entries + [e], streams[StreamKeyOf(mine) := Stream(st.labels, st.values + [e])])
  {
    hide StreamKeyOf;
    var key := StreamKeyOf(mine);
    var longer, after := labels + [mine], streams[key := Stream(st.labels, st.values + [e])];
    if key !in streams {
      NoneSelected(labels, entries, key);
    }
    forall k | k in after
      ensures after[k].values == Selected(longer, entries + [e], k)
    {
      SelectedGrows(labels, entries, mine, e, k);
      if k !in streams { assert k == key; }
    }
    hide Selected;
    forall k | k in after
      ensures exists i :: 0 <= i < |longer| && StreamKeyOf(longer[i]) == k && after[k].labels == longer[i]
    {
      if k in streams {
        var i :| 0 <= i < |labels| && StreamKeyOf(labels[i]) == k && streams[k].labels == labels[i];
        assert longer[i] == labels[i];
      } else {
        assert longer[|labels|] == mine;
      }
    }
  }

  /** The streams listed in the given order of their keys, each once. */
  ghost predicate Listed(streams: map<string, Stream>, order: seq<string>, pushed: seq<Stream>) {
    && Distinct(order) && Members(order) == streams.Keys && |pushed| == |order|
    && forall i | 0 <= i < |order| :: order[i] in streams && pushed[i] == streams[order[i]]
  }

  /** The streams of the push, in whatever order the map yields them. */
  method Push(streams: map<string, Stream>) returns (pushed: seq<Stream>)
    ensures exists order :: Listed(streams, order, pushed)
  {
    pushed := [];
    ghost var order: seq<string> := [];
    var todo := streams.Keys;
    while todo != {}
      invariant Distinct(order) && Members(order) !! todo && Members(order) + todo == streams.Keys
      invariant |pushed| == |order| && forall i | 0 <= i < |order| ::
                  order[i] in streams && pushed[i] == streams[order[i]]
      decreases todo
    {
      var k :| k in todo;
      assert k !in order by { assert k !in Members(order); }
      assert Members(order + [k]) == Members(order) + {k};
      pushed, todo := pushed + [streams[k]], todo - {k};
      order := order + [k];
    }
    assert Listed(streams, order, pushed);
  }

  // ----- what the grouping means

  /** Where no value can imitate, records share a stream exactly when their label
      sets are equal, and the stream carries that label set. */
  lemma StreamsFollowLabels(extra: Labels, alphabet: set<char>, batch: seq<Record>, labels: seq<Labels>,
                            entries: seq<Entry>, streams: map<string, Stream>, i: nat, j: nat)
    requires EnteredAll(extra, batch, labels, entries) && Grouped(labels, entries, streams)
    requires (forall k | k in extra :: Without(extra[k], '\0')) && !Ambiguous(ShapeOf(extra), alphabet)
    requires forall r | r in batch :: RecordOver(alphabet, r)
    requires i < |batch| && j < |batch|
    ensures StreamKeyOf(labels[i]) == StreamKeyOf(labels[j]) <==> labels[i] == labels[j]
    ensures streams[StreamKeyOf(labels[i])].labels == labels[i]
  {
    hide LabelsOf;
    hide BaseLabels;
    hide RecordOver;
    hide Complete;
    hide Selected;
    hide StreamKeyOf;
    hide Ambiguous;
    hide ShapeOf;
    hide Without;
    KeysAgree(extra, alphabet, batch[i], labels[i], batch[j], labels[j]);
    var k :| 0 <= k < |labels| && StreamKeyOf(labels[k]) == StreamKeyOf(labels[i])
             && streams[StreamKeyOf(labels[i])].labels == labels[k];
    KeysAgree(extra, alphabet, batch[i], labels[i], batch[k], labels[k]);
  }

  lemma KeysAgree(extra: Labels, alphabet: set<char>, r: Record, m: Labels, q: Record, n: Labels)
    requires (forall k | k in extra :: Without(extra[k], '\0')) && !Ambiguous(ShapeOf(extra), alphabet)
    requires RecordOver(alphabet, r) && LabelsOf(BaseLabels(r), extra, m)
    requires RecordOver(alphabet, q) && LabelsOf(BaseLabels(q), extra, n)
    ensures StreamKeyOf(m) == StreamKeyOf(n) <==> m == n
  {
    hide LabelsOf;
    hide BaseLabels;
    hide RecordOver;
    hide Ambiguous;
    hide ShapeOf;
    hide Fits;
    hide Sane;
    ShapeIsSane(extra);
    BuiltFits(extra, alphabet, r, m);
    BuiltFits(extra, alphabet, q, n);
    StreamKeyFaithful(ShapeOf(extra), alphabet, m, n);
  }

  /** The entries with the given keys, all together. */
  ghost function Total(labels: seq<Labels>, entries: seq<Entry>, keys: seq<string>): multiset<Entry>
    requires |labels| == |entries|
  {
    if keys == [] then multiset{} else multiset(Selected(labels, entries, keys[0])) + Total(labels, entries, keys[1..])
  }

  lemma {:induction false} TotalGrows(labels: seq<Labels>, entries: seq<Entry>, mine: Labels, e: Entry,
                                      keys: seq<string>)
    requires |labels| == |entries| && Distinct(keys)
    ensures Total(labels + [mine], entries + [e], keys)
            == Total(labels, entries, keys) + if StreamKeyOf(mine) in keys then multiset{e} else multiset{}
  {
    hide StreamKeyOf;
    hide Selected;
    if keys != [] {
      SelectedGrows(labels, entries, mine, e, keys[0]);
      TotalGrows(labels, entries, mine, e, keys[1..]);
      var first, more := Selected(labels, entries, keys[0]), if StreamKeyOf(mine) == keys[0] then [e] else [];
      assert multiset(first + more) == multiset(first) + multiset(more);
      assert StreamKeyOf(mine) in keys <==> StreamKeyOf(mine) == keys[0] || StreamKeyOf(mine) in keys[1..] by {
        assert keys == [keys[0]] + keys[1..];
      }
    }
  }

  lemma {:induction false} TotalOfNone(keys: seq<string>)
    ensures Total([], [], keys) == multiset{}
  {
    if keys != [] {
      TotalOfNone(keys[1..]);
    }
  }

  lemma {:induction false} TotalIsAll(labels: seq<Labels>, entries: seq<Entry>, order: seq<string>)
    requires |labels| == |entries| && Distinct(order)
    requires forall i | 0 <= i < |labels| :: StreamKeyOf(labels[i]) in order
    ensures Total(labels, entries, order) == multiset(entries)
  {
    hide StreamKeyOf;
    if labels == [] {
      TotalOfNone(order);
    } else {
      var n := |labels| - 1;
      assert labels == labels[..n] + [labels[n]] && entries == entries[..n] + [entries[n]];
      TotalIsAll(labels[..n], entries[..n], order);
      TotalGrows(labels[..n], entries[..n], labels[n], entries[n], order);
    }
  }

  /** Everything in the given streams. */
  function AllValues(pushed: seq<Stream>): multiset<Entry> {
    if pushed == [] then multiset{} else multiset(pushed[0].values) + AllValues(pushed[1..])
  }

  lemma {:induction false} ValuesAreTotal(labels: seq<Labels>, entries: seq<Entry>, order: seq<string>,
                                          pushed: seq<Stream>)
    requires |labels| == |entries| && |pushed| == |order|
    requires forall i | 0 <= i < |order| :: pushed[i].values == Selected(labels, entries, order[i])
    ensures AllValues(pushed) == Total(labels, entries, order)
  {
    if order != [] {
      ValuesAreTotal(labels, entries, order[1..], pushed[1..]);
    }
  }

  /** Every record of the batch is pushed, once: whatever order the streams come
      in, together they hold the batch's entries. */
  lemma NothingLostInGrouping(labels: seq<Labels>, entries: seq<Entry>, streams: map<string, Stream>,
                              order: seq<string>,
                              pushed: seq<Stream>)
    requires Grouped(labels, entries, streams) && Listed(streams, order, pushed)
    ensures AllValues(pushed) == multiset(entries)
  {
    hide StreamKeyOf;
    hide Selected;
    forall i | 0 <= i < |labels|
      ensures StreamKeyOf(labels[i]) in order
    {
      assert StreamKeyOf(labels[i]) in Members(order);
    }
    TotalIsAll(labels, entries, order);
    ValuesAreTotal(labels, entries, order, pushed);
  }
}
