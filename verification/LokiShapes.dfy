/** The labels a Loki sink gives a record, and what label sets it can build. Map
    iteration order is arbitrary throughout. */
module LokiShapes {
  import opened LokiLabels
  import opened LokiKeys

  datatype Record = Record(
    time: int, message: string, level: string, severity: string, kind: string,
    projectID: string, projectName: string, environmentID: string, environmentName: string,
    serviceID: string, serviceName: string, deploymentID: string, deploymentInstanceID: string,
    region: string, pluginID: string, snapshotID: string, attributes: map<string, string>)

  function FirstNonEmpty(a: string, b: string): string {
    if a != "" then a else b
  }

  function Put(m: Labels, key: string, val: string): Labels {
    if val != "" then m[key := val] else m
  }

  // ----- labels

  /** The labels every record has before the configured extra ones. */
  function BaseLabels(r: Record): Labels {
    var m0: Labels := map["job" := "intermodal", "source" := "railway"];
    var m1 := Put(m0, "project", FirstNonEmpty(r.projectName, r.projectID));
    var m2 := Put(m1, "environment", FirstNonEmpty(r.environmentName, r.environmentID));
    var m3 := Put(m2, "service", FirstNonEmpty(r.serviceName, r.serviceID));
    Put(Put(m3, "level", r.level), "kind", r.kind)
  }

  /** A possible result of adding the extra labels: names are sanitized, an extra
      label wins over a base label, and of extra labels that sanitize to the same
      name any one may win. */
  ghost predicate LabelsOf(base: Labels, extra: Labels, labels: Labels) {
    && labels.Keys == base.Keys + (set k | k in extra :: Sanitized(k))
    && forall n | n in labels ::
         if exists k :: k in extra && Sanitized(k) == n
         then exists k :: k in extra && Sanitized(k) == n && labels[n] == extra[k]
         else n in base && labels[n] == base[n]
  }

  method LabelsFor(extra: Labels, r: Record) returns (labels: Labels)
    ensures LabelsOf(BaseLabels(r), extra, labels)
  {
    labels := BaseLabels(r);
    ghost var done: set<string> := {};
    var todo := extra.Keys;
    while todo != {}
      invariant done !! todo && done + todo == extra.Keys
      invariant labels.Keys == BaseLabels(r).Keys + (set k | k in done :: Sanitized(k))
      invariant forall n | n in labels ::
                  if exists k :: k in done && Sanitized(k) == n
                  then exists k :: k in done && Sanitized(k) == n && labels[n] == extra[k]
                  else n in BaseLabels(r) && labels[n] == BaseLabels(r)[n]
      decreases todo
    {
      var k :| k in todo;
      var name := SanitizeLabel(k);
      labels := labels[name := extra[k]];
      todo, done := todo - {k}, done + {k};
    }
    assert done == extra.Keys;
  }

  lemma BaseNamesAreLabels(r: Record)
    ensures forall n | n in BaseLabels(r) :: IsLabel(n)
  {
    hide Put;
    hide IsLabel;
    assert IsLabel("job") && IsLabel("source") && IsLabel("project") by { ShortNames(); }
    assert IsLabel("environment") && IsLabel("service") && IsLabel("level") && IsLabel("kind") by { ShortNames(); }
    var m0 := map["job" := "intermodal", "source" := "railway"];
    PutNames(m0, "project", FirstNonEmpty(r.projectName, r.projectID));
    var m1 := Put(m0, "project", FirstNonEmpty(r.projectName, r.projectID));
    PutNames(m1, "environment", FirstNonEmpty(r.environmentName, r.environmentID));
    var m2 := Put(m1, "environment", FirstNonEmpty(r.environmentName, r.environmentID));
    PutNames(m2, "service", FirstNonEmpty(r.serviceName, r.serviceID));
    var m3 := Put(m2, "service", FirstNonEmpty(r.serviceName, r.serviceID));
    PutNames(m3, "level", r.level);
    PutNames(Put(m3, "level", r.level), "kind", r.kind);
  }

  lemma ShortNames()
    ensures IsLabel("job") && IsLabel("source") && IsLabel("project") && IsLabel("environment")
    ensures IsLabel("service") && IsLabel("level") && IsLabel("kind")
  {
  }

  lemma PutIs(m: Labels, key: string, val: string)
    ensures val == "" ==> Put(m, key, val) == m
    ensures val != "" ==> Put(m, key, val) == m[key := val]
  {
  }

  /** The labels by field: a name stands in for its id only if it is there, and
      what is empty has no label. */
  lemma BaseFields(r: Record)
    ensures var m := BaseLabels(r);
            && m.Keys <= {"job", "source"} + OPTIONAL
            && "job" in m && m["job"] == "intermodal" && "source" in m && m["source"] == "railway"
            && (if r.projectName == "" && r.projectID == "" then "project" !in m
                else "project" in m && m["project"] == if r.projectName == "" then r.projectID else r.projectName)
            && (if r.environmentName == "" && r.environmentID == "" then "environment" !in m
                else "environment" in m
                     && m["environment"] == if r.environmentName == "" then r.environmentID else r.environmentName)
            && (if r.serviceName == "" && r.serviceID == "" then "service" !in m
                else "service" in m && m["service"] == if r.serviceName == "" then r.serviceID else r.serviceName)
            && (if r.level == "" then "level" !in m else "level" in m && m["level"] == r.level)
            && (if r.kind == "" then "kind" !in m else "kind" in m && m["kind"] == r.kind)
  {
    hide Put;
    var m0: Labels := map["job" := "intermodal", "source" := "railway"];
    var m1 := Put(m0, "project", FirstNonEmpty(r.projectName, r.projectID));
    var m2 := Put(m1, "environment", FirstNonEmpty(r.environmentName, r.environmentID));
    var m3 := Put(m2, "service", FirstNonEmpty(r.serviceName, r.serviceID));
    var m4 := Put(m3, "level", r.level);
    PutIs(m0, "project", FirstNonEmpty(r.projectName, r.projectID));
    PutIs(m1, "environment", FirstNonEmpty(r.environmentName, r.environmentID));
    PutIs(m2, "service", FirstNonEmpty(r.serviceName, r.serviceID));
    PutIs(m3, "level", r.level);
    PutIs(m4, "kind", r.kind);
  }

  lemma PutNames(m: Labels, key: string, val: string)
    ensures forall n | n in Put(m, key, val) :: n == key || n in m
  {
  }

  /** Stream labels are valid label names, so no name contains '='. */
  lemma LabelNamesAreValid(r: Record, extra: Labels, labels: Labels)
    requires LabelsOf(BaseLabels(r), extra, labels)
    ensures forall n | n in labels :: IsLabel(n) && Without(n, '=')
  {
    BaseNamesAreLabels(r);
    hide BaseLabels;
    forall n | n in labels
      ensures IsLabel(n)
    {
      if exists k :: k in extra && Sanitized(k) == n {
        var k :| k in extra && Sanitized(k) == n;
        SanitizedIsLabel(k);
      }
    }
  }

  // ----- what label sets a sink builds

  const OPTIONAL: set<string> := {"project", "environment", "service", "level", "kind"}

  /** What a record has for a base label. */
  function ValueOf(r: Record, name: string): string {
    if name == "project" then FirstNonEmpty(r.projectName, r.projectID)
    else if name == "environment" then FirstNonEmpty(r.environmentName, r.environmentID)
    else if name == "service" then FirstNonEmpty(r.serviceName, r.serviceID)
    else if name == "level" then r.level
    else if name == "kind" then r.kind
    else if name == "job" then "intermodal"
    else if name == "source" then "railway"
    else ""
  }

  /** The fixed base labels, and those of names that the record has a value for. */
  ghost predicate LabelsSoFar(m: Labels, names: set<string>, r: Record) {
    && m.Keys == {"job", "source"} + (set n | n in names && ValueOf(r, n) != "")
    && forall n | n in m :: m[n] == ValueOf(r, n)
  }

  lemma PutGoesOn(m: Labels, names: set<string>, r: Record, key: string)
    requires LabelsSoFar(m, names, r)
    ensures LabelsSoFar(Put(m, key, ValueOf(r, key)), names + {key}, r)
  {
    hide ValueOf;
  }

  lemma ValuesAre(r: Record)
    ensures ValueOf(r, "project") == FirstNonEmpty(r.projectName, r.projectID)
    ensures ValueOf(r, "environment") == FirstNonEmpty(r.environmentName, r.environmentID)
    ensures ValueOf(r, "service") == FirstNonEmpty(r.serviceName, r.serviceID)
    ensures ValueOf(r, "level") == r.level && ValueOf(r, "kind") == r.kind
    ensures ValueOf(r, "job") == "intermodal" && ValueOf(r, "source") == "railway"
  {
  }

  lemma BaseLabelsInSteps(r: Record)
    ensures var m0: Labels := map["job" := "intermodal", "source" := "railway"];
            var m1 := Put(m0, "project", ValueOf(r, "project"));
            var m2 := Put(m1, "environment", ValueOf(r, "environment"));
            var m3 := Put(m2, "service", ValueOf(r, "service"));
            var m4 := Put(m3, "level", ValueOf(r, "level"));
            LabelsSoFar(m0, {}, r) && BaseLabels(r) == Put(m4, "kind", ValueOf(r, "kind"))
  {
    hide ValueOf;
    hide Put;
    hide FirstNonEmpty;
    ValuesAre(r);
  }

  lemma BaseLabelsAre(r: Record)
    ensures LabelsSoFar(BaseLabels(r), OPTIONAL, r)
  {
    hide *;
    BaseLabelsInSteps(r);
    var m0: Labels := map["job" := "intermodal", "source" := "railway"];
    PutGoesOn(m0, {}, r, "project");
    var m1 := Put(m0, "project", ValueOf(r, "project"));
    PutGoesOn(m1, {} + {"project"}, r, "environment");
    var m2 := Put(m1, "environment", ValueOf(r, "environment"));
    PutGoesOn(m2, {} + {"project"} + {"environment"}, r, "service");
    var m3 := Put(m2, "service", ValueOf(r, "service"));
    PutGoesOn(m3, {} + {"project"} + {"environment"} + {"service"}, r, "level");
    var m4 := Put(m3, "level", ValueOf(r, "level"));
    PutGoesOn(m4, {} + {"project"} + {"environment"} + {"service"} + {"level"}, r, "kind");
    AllOptional();
  }

  lemma AllOptional()
    ensures {} + {"project"} + {"environment"} + {"service"} + {"level"} + {"kind"} == OPTIONAL
  {
  }

  ghost function ExtraNames(extra: Labels): set<string> {
    set k | k in extra :: Sanitized(k)
  }

  /** The values a fixed name may have: a configured one, or its own. */
  ghost function Choices(extra: Labels, n: string): set<string> {
    if n in ExtraNames(extra) then set k | k in extra && Sanitized(k) == n :: extra[k]
    else {if n == "job" then "intermodal" else "railway"}
  }

  ghost function ShapeOf(extra: Labels): Shape {
    Shape(map n | n in {"job", "source"} + ExtraNames(extra) :: Choices(extra, n), OPTIONAL - ExtraNames(extra))
  }

  /** The record's own values are written in the alphabet. */
  predicate RecordOver(alphabet: set<char>, r: Record) {
    forall n | n in OPTIONAL :: Written(alphabet, ValueOf(r, n))
  }

  /** What the sink can build of a record over the alphabet. */
  ghost predicate Builds(extra: Labels, alphabet: set<char>, r: Record, m: Labels) {
    RecordOver(alphabet, r) && LabelsOf(BaseLabels(r), extra, m)
  }

  lemma ShapeIsSane(extra: Labels)
    requires forall k | k in extra :: Without(extra[k], '\0')
    ensures Sane(ShapeOf(extra))
  {
    var shape := ShapeOf(extra);
    ShortNames();
    forall n | n in shape.fixed.Keys + shape.optional
      ensures IsLabel(n)
    {
      if n in ExtraNames(extra) {
        var k :| k in extra && Sanitized(k) == n;
        SanitizedIsLabel(k);
      }
    }
    forall n | n in shape.fixed
      ensures shape.fixed[n] != {} && forall x | x in shape.fixed[n] :: Without(x, '\0')
    {
      ChoicesAreSane(extra, n);
    }
  }

  lemma ChoicesAreSane(extra: Labels, n: string)
    requires forall k | k in extra :: Without(extra[k], '\0')
    ensures Choices(extra, n) != {} && forall x | x in Choices(extra, n) :: Without(x, '\0')
  {
    if n in ExtraNames(extra) {
      var k :| k in extra && Sanitized(k) == n;
      assert extra[k] in Choices(extra, n);
    }
  }

  /** What the sink builds has the sink's shape, */
  lemma BuiltFits(extra: Labels, alphabet: set<char>, r: Record, m: Labels)
    requires Builds(extra, alphabet, r, m)
    ensures Fits(ShapeOf(extra), alphabet, m)
  {
    BaseLabelsAre(r);
    hide BaseLabels;
    hide Written;
    hide Sanitized;
    hide FirstNonEmpty;
    var shape := ShapeOf(extra);
    forall n | n in m
      ensures if n in shape.fixed then m[n] in shape.fixed[n] else m[n] != "" && Written(alphabet, m[n])
    {
      if n in ExtraNames(extra) {
        var k :| k in extra && Sanitized(k) == n && m[n] == extra[k];
      }
    }
  }

  /** A record with the given base labels. */
  function RecordWith(own: Labels): Record {
    Record(0, "", Own(own, "level"), "", Own(own, "kind"), "", Own(own, "project"), "", Own(own, "environment"),
           "", Own(own, "service"), "", "", "", "", "", map[])
  }

  function Own(own: Labels, n: string): string {
    if n in own then own[n] else ""
  }

  lemma ValueWith(own: Labels, n: string)
    requires n in OPTIONAL
    ensures ValueOf(RecordWith(own), n) == Own(own, n)
  {
    ValuesAre(RecordWith(own));
    hide ValueOf;
    hide Own;
  }

  /** and everything of that shape is built of some record. */
  lemma FittingIsBuilt(extra: Labels, alphabet: set<char>, m: Labels) returns (r: Record)
    requires Fits(ShapeOf(extra), alphabet, m)
    ensures Builds(extra, alphabet, r, m)
  {
    var own := m - ExtraNames(extra);
    r := RecordWith(own);
    BaseLabelsAre(r);
    ValuesAre(r);
    forall n | n in OPTIONAL
      ensures ValueOf(r, n) == Own(own, n)
    {
      ValueWith(own, n);
    }
    var base := BaseLabels(r);
    hide BaseLabels;
    hide RecordWith;
    hide ValueOf;
    hide Sanitized;
    FitIsBuilt(extra, alphabet, m, r, base, own);
  }

  lemma FitIsBuilt(extra: Labels, alphabet: set<char>, m: Labels, r: Record, base: Labels, own: Labels)
    requires Fits(ShapeOf(extra), alphabet, m) && own == m - ExtraNames(extra)
    requires LabelsSoFar(base, OPTIONAL, r) && forall n | n in OPTIONAL :: ValueOf(r, n) == Own(own, n)
    requires ValueOf(r, "job") == "intermodal" && ValueOf(r, "source") == "railway"
    ensures LabelsOf(base, extra, m) && RecordOver(alphabet, r)
  {
    hide ValueOf;
    hide Sanitized;
    hide Written;
    hide ShapeOf;
    hide Fits;
    OwnIsWritten(extra, alphabet, m, own);
    FitKeys(extra, alphabet, m, r, base, own);
    forall n | n in m
      ensures if exists k :: k in extra && Sanitized(k) == n
              then exists k :: k in extra && Sanitized(k) == n && m[n] == extra[k]
              else n in base && m[n] == base[n]
    {
      FitAt(extra, alphabet, m, n);
    }
  }

  lemma FitKeys(extra: Labels, alphabet: set<char>, m: Labels, r: Record, base: Labels, own: Labels)
    requires Fits(ShapeOf(extra), alphabet, m) && own == m - ExtraNames(extra)
    requires LabelsSoFar(base, OPTIONAL, r) && forall n | n in OPTIONAL :: ValueOf(r, n) == Own(own, n)
    ensures m.Keys == base.Keys + ExtraNames(extra)
  {
    hide ValueOf;
    hide Sanitized;
    hide Written;
    forall n | n in m && n !in ExtraNames(extra)
      ensures n in base
    {
      FitAt(extra, alphabet, m, n);
    }
  }

  lemma FitAt(extra: Labels, alphabet: set<char>, m: Labels, n: string)
    requires Fits(ShapeOf(extra), alphabet, m) && n in m
    ensures n in ExtraNames(extra) ==> exists k :: k in extra && Sanitized(k) == n && m[n] == extra[k]
    ensures n !in ExtraNames(extra) && n in OPTIONAL ==> m[n] != ""
    ensures n !in ExtraNames(extra) && n !in OPTIONAL ==> n in {"job", "source"}
    ensures n !in ExtraNames(extra) && n in {"job", "source"} ==> m[n] == if n == "job" then "intermodal" else "railway"
  {
    hide Sanitized;
    hide Written;
    var shape := ShapeOf(extra);
    if n in shape.fixed {
      assert m[n] in Choices(extra, n);
    }
  }

  lemma OwnIsWritten(extra: Labels, alphabet: set<char>, m: Labels, own: Labels)
    requires Fits(ShapeOf(extra), alphabet, m) && own == m - ExtraNames(extra)
    ensures forall n | n in OPTIONAL :: Written(alphabet, Own(own, n))
  {
    hide Sanitized;
  }

  /** The keys of what a sink builds of records over an alphabet tell label sets
      apart if and only if no value can imitate, as over any alphabet without NUL.
      Configured values come from the environment, which cannot hold NUL. */
  lemma KeysFaithfulIff(extra: Labels, alphabet: set<char>)
    requires forall k | k in extra :: Without(extra[k], '\0')
    ensures (forall r, m, q, n | Builds(extra, alphabet, r, m) && Builds(extra, alphabet, q, n)
                                 && StreamKeyOf(m) == StreamKeyOf(n) :: m == n)
            <==> !Ambiguous(ShapeOf(extra), alphabet)
  {
    hide Fits;
    hide Ambiguous;
    hide Builds;
    hide Sane;
    ShapeIsSane(extra);
    var shape := ShapeOf(extra);
    hide ShapeOf;
    if Ambiguous(shape, alphabet) {
      var m, n := Collision(shape, alphabet);
      var r := FittingIsBuilt(extra, alphabet, m);
      var q := FittingIsBuilt(extra, alphabet, n);
    } else {
      forall r, m, q, n | Builds(extra, alphabet, r, m) && Builds(extra, alphabet, q, n)
                          && StreamKeyOf(m) == StreamKeyOf(n)
        ensures m == n
      {
        BuiltFits(extra, alphabet, r, m);
        BuiltFits(extra, alphabet, q, n);
        StreamKeyFaithful(shape, alphabet, m, n);
      }
    }
  }

  /** Two records of one service each that end up in one stream: NUL in a project
      name lets it read like a project and a service. */
  lemma NulJoinsStreams() returns (r: Record, q: Record, m: Labels, n: Labels)
    ensures r == RecordWith(map["project" := "p\0service=s"]) &&
            q == RecordWith(map["project" := "p", "service" := "s"])
    ensures LabelsOf(BaseLabels(r), map[], m) && LabelsOf(BaseLabels(q), map[], n)
    ensures m != n && StreamKeyOf(m) == StreamKeyOf(n)
  {
    r, q := RecordWith(map["project" := "p\0service=s"]), RecordWith(map["project" := "p", "service" := "s"]);
    m, n := BaseLabels(r), BaseLabels(q);
    OneProject("p\0service=s");
    ProjectAndService("p", "s");
    NoExtraLabels(m);
    NoExtraLabels(n);
    SameKey();
    hide *;
  }

  lemma NoExtraLabels(base: Labels)
    ensures LabelsOf(base, map[], base)
  {
  }

  lemma SameKey()
    ensures var fixed: Labels := map["job" := "intermodal", "source" := "railway"];
            var m, n := fixed["project" := "p\0service=s"], fixed["project" := "p"]["service" := "s"];
            m != n && StreamKeyOf(m) == StreamKeyOf(n)
  {
    hide Render;
    hide StreamKeyOf;
    var fixed: Labels := map["job" := "intermodal", "source" := "railway"];
    assert "service" !in fixed["project" := "p\0service=s"];
    assert Around(fixed, ["job"], "project", [], "service", ["source"]);
    hide Around;
    KeyWithOne(fixed, ["job"], "project", [], "service", ["source"], "p\0service=s");
    KeyWithBoth(fixed, ["job"], "project", [], "service", ["source"], "p", "s");
    NoRender(fixed);
    SameTail(Render(["job"], fixed), Render(["source"], fixed));
  }

  lemma NoRender(m: Labels)
    ensures Render([], m) == ""
  {
  }

  lemma SameTail(p: string, q: string)
    ensures p + ("project" + "=" + "p\0service=s" + "\0") + ("" + q)
            == p + ("project" + "=" + "p" + "\0") + (("" + ("service" + "=" + "s" + "\0")) + q)
  {
    assert "project" + "=" + "p\0service=s" + "\0" == "project=p\0" + "service=s\0";
    assert "project" + "=" + "p" + "\0" == "project=p\0";
    assert "service" + "=" + "s" + "\0" == "service=s\0";
    assert p + ("project=p\0" + "service=s\0") + q == p + "project=p\0" + ("service=s\0" + q);
  }

  lemma OneProject(x: string)
    requires x != ""
    ensures BaseLabels(RecordWith(map["project" := x]))
            == map["job" := "intermodal", "source" := "railway"]["project" := x]
  {
    var r := RecordWith(map["project" := x]);
    ValuesAre(r);
    hide ValueOf;
  }

  lemma ProjectAndService(x: string, y: string)
    requires x != "" && y != ""
    ensures BaseLabels(RecordWith(map["project" := x, "service" := y]))
            == map["job" := "intermodal", "source" := "railway"]["project" := x]["service" := y]
  {
    var r := RecordWith(map["project" := x, "service" := y]);
    ValuesAre(r);
    hide ValueOf;
  }
}
