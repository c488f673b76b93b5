/** The compiler from lists of fields, operators and values to a nested filter specification. */
module FilterSpec {
  import opened Common
  import opened StableSort

  datatype Name = Name(text: string)

  datatype Condition = Condition(field: string, op: string, value: string)

  /** One filter; its key is the model it is about. */
  type Filter = Keyed<Name, Condition>

  /** A group under "and" or under "or". A specification is the conjunction of its groups. */
  datatype Group = And(filters: seq<Filter>) | Or(filters: seq<Filter>)

  datatype Error = TooManyDots | ModelNotFound

  datatype Triple = Triple(field: string, op: string, value: string)

  // ------------------------------------------------------------ model names are ordered as text

  predicate TextLeq(a: string, b: string) {
    a == [] || (b != [] && (a[0] < b[0] || (a[0] == b[0] && TextLeq(a[1..], b[1..]))))
  }

  /** Up to i the texts are the same, and there `a` ends or has the smaller letter. */
  predicate ComesFirstAt(a: string, b: string, i: nat) {
    i <= |a| && i <= |b| && a[..i] == b[..i] && (i == |a| || (i < |b| && a[i] < b[i]))
  }

  lemma ComesFirstLater(a: string, b: string, i: nat)
    requires a != [] && b != [] && a[0] == b[0]
    ensures ComesFirstAt(a, b, i + 1) <==> ComesFirstAt(a[1..], b[1..], i)
  {
    if i < |a| && i < |b| {
      assert a[..i + 1] == [a[0]] + a[1..][..i] && b[..i + 1] == [b[0]] + b[1..][..i];
      assert a[1..][..i] == a[..i + 1][1..] && b[1..][..i] == b[..i + 1][1..];
    }
  }

  lemma ComesFirstAtOnce(a: string, b: string)
    requires a == [] || (b != [] && a[0] < b[0])
    ensures ComesFirstAt(a, b, 0)
  {
    assert a[..0] == b[..0];
  }

  lemma SameStart(a: string, b: string, i: nat)
    requires ComesFirstAt(a, b, i) && i > 0
    ensures a != [] && b != [] && a[0] == b[0]
  {
    assert a[..i][0] == b[..i][0];
  }

  /** Text order: the first place where the two differ decides, and a text comes before its continuations. */
  lemma {:induction false} TextIsLexicographic(a: string, b: string)
    ensures TextLeq(a, b) <==> exists i: nat :: ComesFirstAt(a, b, i)
  {
    if a == [] || (b != [] && a[0] < b[0]) {
      ComesFirstAtOnce(a, b);
    } else {
      if exists i: nat :: ComesFirstAt(a, b, i) {
        var i: nat :| ComesFirstAt(a, b, i);
        SameStart(a, b, i);
        ComesFirstLater(a, b, i - 1);
        TextIsLexicographic(a[1..], b[1..]);
      }
      if TextLeq(a, b) {
        TextIsLexicographic(a[1..], b[1..]);
        var i: nat :| ComesFirstAt(a[1..], b[1..], i);
        ComesFirstLater(a, b, i);
      }
    }
  }

  predicate NameLeq(a: Name, b: Name) {
    TextLeq(a.text, b.text)
  }

  lemma NamesAreInTextOrder(a: Name, b: Name)
    ensures NameLeq(a, b) <==> exists i: nat :: ComesFirstAt(a.text, b.text, i)
  {
    TextIsLexicographic(a.text, b.text);
  }

  lemma {:induction false} TextTotal(a: string, b: string)
    ensures TextLeq(a, b) || TextLeq(b, a)
  {
    if a != [] && b != [] { TextTotal(a[1..], b[1..]); }
  }

  lemma {:induction false} TextAntisymmetric(a: string, b: string)
    requires TextLeq(a, b) && TextLeq(b, a)
    ensures a == b
  {
    if a != [] {
      TextAntisymmetric(a[1..], b[1..]);
      assert a == [a[0]] + a[1..] && b == [b[0]] + b[1..];
    }
  }

  lemma {:induction false} TextTransitive(a: string, b: string, c: string)
    requires TextLeq(a, b) && TextLeq(b, c)
    ensures TextLeq(a, c)
  {
    if a != [] && a[0] == b[0] == c[0] { TextTransitive(a[1..], b[1..], c[1..]); }
  }

  lemma NamesAreOrdered()
    ensures TotalOrder(NameLeq)
  {
    forall a, b ensures NameLeq(a, b) || NameLeq(b, a) { TextTotal(a.text, b.text); }
    forall a, b | NameLeq(a, b) && NameLeq(b, a) ensures a == b { TextAntisymmetric(a.text, b.text); }
    forall a, b, c | NameLeq(a, b) && NameLeq(b, c) ensures NameLeq(a, c) { TextTransitive(a.text, b.text, c.text); }
  }

  // ------------------------------------------------------------ reading the triples

  /** The parts of a text between its dots. */
  function Split(s: string): (r: seq<string>)
    ensures r != []
  {
    if s == [] then [""]
    else
      var init := Split(Init(s));
      if Last(s) == '.' then init + [""] else Init(init) + [Last(init) + [Last(s)]]
  }

  function Join(parts: seq<string>): (s: string)
    requires parts != []
  {
    if |parts| == 1 then parts[0] else Join(Init(parts)) + "." + Last(parts)
  }

  /** The parts and the dots between them make up the text, and no part holds a dot. */
  lemma {:induction false} SplitIsExact(s: string)
    ensures Join(Split(s)) == s
    ensures forall p :: p in Split(s) ==> '.' !in p
  {
    if s != [] {
      SplitIsExact(Init(s));
      var parts := Split(Init(s));
      assert s == Init(s) + [Last(s)];
      if Last(s) == '.' {
        assert Init(parts + [""]) == parts;
        assert Join(parts + [""]) == Join(parts) + "." + "";
      } else {
        var last := Last(parts) + [Last(s)];
        assert Last(parts) in parts;
        assert Init(Init(parts) + [last]) == Init(parts);
        if |parts| == 1 {
          assert Init(parts) + [last] == [last];
        } else {
          assert Join(Init(parts) + [last]) == Join(Init(parts)) + "." + last;
        }
        forall p | p in Init(parts) + [last] ensures '.' !in p { assert p == last || p in parts; }
      }
    }
  }

  /** The filter of one triple; a field with a dot names the table of its own model. */
  function ToFilter(model: Name, t: Triple, resolve: string -> Option<Name>): (r: Result<Filter, Error>) {
    if '.' in t.field then
      var parts := Split(t.field);
      if |parts| != 2 then Err(TooManyDots)
      else
        match resolve(parts[0])
        case None => Err(ModelNotFound)
        case Some(name) => Ok(Keyed(name, Condition(parts[1], t.op, t.value)))
    else
      Ok(Keyed(model, Condition(t.field, t.op, t.value)))
  }

  lemma {:induction false} SplitPlain(s: string)
    requires '.' !in s
    ensures Split(s) == [s]
  {
    if s != [] {
      assert s == Init(s) + [Last(s)];
      SplitPlain(Init(s));
    }
  }

  lemma SplitSnoc(s: string, x: char)
    ensures x == '.' ==> Split(s + [x]) == Split(s) + [""]
    ensures x != '.' ==> Split(s + [x]) == Init(Split(s)) + [Last(Split(s)) + [x]]
  {
    assert Init(s + [x]) == s;
  }

  lemma InitOfConcat(a: seq<string>, b: seq<string>, last: string)
    requires b != []
    ensures Init(a + b) + [last] == a + (Init(b) + [last])
  {
  }

  /** A dot separates the parts before it from those behind it. */
  lemma {:induction false} SplitAtDot(a: string, b: string)
    ensures Split(a + "." + b) == Split(a) + Split(b)
  {
    if b == [] {
      SplitSnoc(a, '.');
      assert a + "." + b == a + ['.'];
    } else {
      var init, x := Init(b), Last(b);
      SplitAtDot(a, init);
      assert a + "." + b == (a + "." + init) + [x] && b == init + [x];
      SplitSnoc(a + "." + init, x);
      SplitSnoc(init, x);
      if x == '.' {
        Associate(Split(a), Split(init), [""]);
      } else {
        InitOfConcat(Split(a), Split(init), Last(Split(init)) + [x]);
      }
    }
  }

  lemma DotSplits(s: string)
    requires '.' in s
    ensures |Split(s)| >= 2
  {
    var i :| 0 <= i < |s| && s[i] == '.';
    assert s == s[..i] + "." + s[i + 1..];
    SplitAtDot(s[..i], s[i + 1..]);
  }

  /**
   The filter of a triple: a plain field is one of the model asked for; a field behind a single dot
   is one of the model that the table before the dot names, if it names one; two dots are refused.
   Operator and value stay.
   */
  lemma FilterOfField(model: Name, a: string, b: string, op: string, value: string, resolve: string -> Option<Name>)
    requires '.' !in a
    ensures ToFilter(model, Triple(a, op, value), resolve) == Ok(Keyed(model, Condition(a, op, value)))
    ensures '.' in b ==> ToFilter(model, Triple(a + "." + b, op, value), resolve) == Err(TooManyDots)
    ensures '.' !in b && resolve(a).None? ==> ToFilter(model, Triple(a + "." + b, op, value), resolve) == Err(ModelNotFound)
    ensures '.' !in b && resolve(a).Some? ==>
      ToFilter(model, Triple(a + "." + b, op, value), resolve) == Ok(Keyed(resolve(a).value, Condition(b, op, value)))
  {
    var field := a + "." + b;
    assert field[|a|] == '.';
    SplitPlain(a);
    SplitAtDot(a, b);
    if '.' in b { DotSplits(b); } else { SplitPlain(b); }
  }

  /** The filters of all triples, or the error of the first triple that has one. */
  function ToFilters(model: Name, triples: seq<Triple>, resolve: string -> Option<Name>): (r: Result<seq<Filter>, Error>) {
    if triples == [] then Ok([])
    else
      match ToFilters(model, Init(triples), resolve)
      case Err(e) => Err(e)
      case Ok(filters) =>
        match ToFilter(model, Last(triples), resolve)
        case Err(e) => Err(e)
        case Ok(f) => Ok(filters + [f])
  }

  /** Pairs up the three lists as far as the shortest reaches. */
  function Zip(fields: seq<string>, ops: seq<string>, values: seq<string>): (r: seq<Triple>)
    ensures |r| == Min(|fields|, Min(|ops|, |values|))
    ensures forall i :: 0 <= i < |r| ==> r[i] == Triple(fields[i], ops[i], values[i])
  {
    seq(Min(|fields|, Min(|ops|, |values|)),
        i requires 0 <= i < Min(|fields|, Min(|ops|, |values|)) => Triple(fields[i], ops[i], values[i]))
  }

  lemma {:induction false} FilterOf(model: Name, triples: seq<Triple>, resolve: string -> Option<Name>, f: Filter)
    requires ToFilters(model, triples, resolve).Ok?
    ensures f in ToFilters(model, triples, resolve).value <==> exists t :: t in triples && ToFilter(model, t, resolve) == Ok(f)
  {
    if triples != [] {
      var init, last := Init(triples), Last(triples);
      FilterOf(model, init, resolve, f);
      assert triples == init + [last];
      forall t | t in triples && ToFilter(model, t, resolve) == Ok(f)
        ensures f in ToFilters(model, triples, resolve).value
      {
        assert t in init || t == last;
      }
    }
  }

  lemma {:induction false} OkWhenAllAre(model: Name, triples: seq<Triple>, resolve: string -> Option<Name>)
    ensures ToFilters(model, triples, resolve).Ok? <==> forall t :: t in triples ==> ToFilter(model, t, resolve).Ok?
  {
    if triples != [] {
      var init, last := Init(triples), Last(triples);
      OkWhenAllAre(model, init, resolve);
      assert triples == init + [last];
      assert last in triples;
    }
  }

  /** Triple by triple, in order; where it fails, with the error of the first triple that has one. */
  lemma {:induction false} FiltersInOrder(model: Name, triples: seq<Triple>, resolve: string -> Option<Name>)
    ensures match ToFilters(model, triples, resolve)
      case Ok(filters) => |filters| == |triples| && forall i :: 0 <= i < |triples| ==> ToFilter(model, triples[i], resolve) == Ok(filters[i])
      case Err(e) => exists i :: 0 <= i < |triples| && ToFilter(model, triples[i], resolve) == Err(e)
                       && forall j :: 0 <= j < i ==> ToFilter(model, triples[j], resolve).Ok?
  {
    if triples != [] {
      var init := Init(triples);
      FiltersInOrder(model, init, resolve);
      match ToFilters(model, init, resolve)
      case Ok(filters) =>
        assert forall i :: 0 <= i < |init| ==> triples[i] == init[i];
        assert ToFilters(model, triples, resolve).Err? ==> ToFilter(model, triples[|init|], resolve).Err?;
      case Err(e) =>
        var i :| 0 <= i < |init| && ToFilter(model, init[i], resolve) == Err(e) && forall j :: 0 <= j < i ==> ToFilter(model, init[j], resolve).Ok?;
        assert triples[i] == init[i] && forall j :: 0 <= j < i ==> triples[j] == init[j];
    }
  }

  // ------------------------------------------------------------ grouping

  /** Neighbouring filters about one model. */
  datatype Run = Run(model: Name, filters: seq<Filter>)

  /** The runs with one more filter: in the last one if it is about the same model, else in a new one. */
  function Extend(runs: seq<Run>, x: Filter): (r: seq<Run>) {
    if runs != [] && Last(runs).model == x.key then Init(runs) + [Run(x.key, Last(runs).filters + [x])]
    else runs + [Run(x.key, [x])]
  }

  function GroupBy(s: seq<Filter>): (r: seq<Run>) {
    if s == [] then [] else Extend(GroupBy(Init(s)), Last(s))
  }

  /** The filters of all runs one after the other. */
  function Ungroup(runs: seq<Run>): (r: seq<Filter>) {
    if runs == [] then [] else Ungroup(Init(runs)) + Last(runs).filters
  }

  ghost predicate HasRun(runs: seq<Run>, model: Name) {
    exists i :: 0 <= i < |runs| && runs[i].model == model
  }

  /** The run holds the filters of its model in the order given. */
  predicate RunIs(run: Run, filters: seq<Filter>) {
    run.filters != [] && run.filters == With(filters, run.model)
  }

  predicate DistinctModels(runs: seq<Run>) {
    forall i, j :: 0 <= i < j < |runs| ==> runs[i].model != runs[j].model
  }

  /** One run for each model that occurs, holding that model's filters in the order given. */
  ghost predicate RunsOf(runs: seq<Run>, filters: seq<Filter>) {
    && (forall i :: 0 <= i < |runs| ==> RunIs(runs[i], filters))
    && DistinctModels(runs)
    && (forall f :: f in filters ==> HasRun(runs, f.key))
  }

  predicate Ascending(runs: seq<Run>) {
    forall i, j :: 0 <= i < j < |runs| ==> NameLeq(runs[i].model, runs[j].model)
  }

  predicate EndsWith(runs: seq<Run>, s: seq<Filter>) {
    if s == [] then runs == [] else runs != [] && Last(runs).model == Last(s).key
  }

  lemma {:induction false} NoneOfModel(s: seq<Filter>, model: Name)
    requires forall f :: f in s ==> f.key != model
    ensures With(s, model) == []
  {
    if s != [] {
      assert Last(s) in s;
      NoneOfModel(Init(s), model);
    }
  }

  /** What the runs of sorted filters are. */
  ghost predicate Grouped(runs: seq<Run>, s: seq<Filter>) {
    RunsOf(runs, s) && Ascending(runs) && EndsWith(runs, s)
  }

  /** Sorted filters fall into one run for each model, models ascending. */
  lemma {:induction false} SortedAreGrouped(s: seq<Filter>)
    requires Sorted(s, NameLeq)
    ensures Grouped(GroupBy(s), s)
  {
    if s != [] {
      var init, x := Init(s), Last(s);
      SortedAreGrouped(init);
      assert s == init + [x];
      ExtendIsGrouped(GroupBy(init), init, x);
    }
  }

  /** Grouping loses nothing: the runs one after the other are the filters. */
  lemma {:induction false} UngroupUndoesGroupBy(s: seq<Filter>)
    ensures Ungroup(GroupBy(s)) == s
  {
    if s != [] {
      UngroupUndoesGroupBy(Init(s));
      UngroupExtend(GroupBy(Init(s)), Last(s), Init(s), s);
    }
  }

  lemma UngroupSnoc(runs: seq<Run>, run: Run)
    ensures Ungroup(runs + [run]) == Ungroup(runs) + run.filters
  {
    assert Init(runs + [run]) == runs;
  }

  lemma UngroupExtend(runs: seq<Run>, x: Filter, init: seq<Filter>, s: seq<Filter>)
    requires Ungroup(runs) == init && s != [] && init == Init(s) && x == Last(s)
    ensures Ungroup(Extend(runs, x)) == s
  {
    if runs != [] && Last(runs).model == x.key {
      UngroupLonger(runs, x);
    } else {
      UngroupSnoc(runs, Run(x.key, [x]));
    }
    assert s == init + [x];
  }

  lemma UngroupLonger(runs: seq<Run>, x: Filter)
    requires runs != []
    ensures Ungroup(Init(runs) + [Run(x.key, Last(runs).filters + [x])]) == Ungroup(runs) + [x]
  {
    UngroupSnoc(Init(runs), Run(x.key, Last(runs).filters + [x]));
    Associate(Ungroup(Init(runs)), Last(runs).filters, [x]);
  }

  lemma ExtendIsGrouped(runs: seq<Run>, init: seq<Filter>, x: Filter)
    requires Grouped(runs, init) && Sorted(init + [x], NameLeq)
    ensures Grouped(Extend(runs, x), init + [x])
  {
    if runs != [] && Last(runs).model == x.key {
      LongerRun(runs, init, x);
    } else {
      NewRun(runs, init, x);
    }
  }

  lemma HasRunOf(runs: seq<Run>, more: seq<Run>, model: Name)
    requires HasRun(runs, model) && |runs| <= |more| && forall i :: 0 <= i < |runs| ==> more[i].model == runs[i].model
    ensures HasRun(more, model)
  {
    var i :| 0 <= i < |runs| && runs[i].model == model;
    assert more[i].model == model;
  }

  /** Every filter has a run, if the old ones kept theirs and the new one has one. */
  lemma AllHaveRuns(runs: seq<Run>, more: seq<Run>, init: seq<Filter>, x: Filter)
    requires forall f :: f in init ==> HasRun(runs, f.key)
    requires |runs| <= |more| && forall i :: 0 <= i < |runs| ==> more[i].model == runs[i].model
    requires HasRun(more, x.key)
    ensures forall f :: f in init + [x] ==> HasRun(more, f.key)
  {
    forall f | f in init + [x] ensures HasRun(more, f.key) {
      if f in init { HasRunOf(runs, more, f.key); }
    }
  }

  lemma RunOfOther(run: Run, init: seq<Filter>, x: Filter)
    requires RunIs(run, init) && run.model != x.key
    ensures RunIs(run, init + [x])
  {
    WithSnoc(init, x, run.model);
  }

  lemma LongerRun(runs: seq<Run>, init: seq<Filter>, x: Filter)
    requires RunsOf(runs, init) && Ascending(runs) && runs != [] && Last(runs).model == x.key
    ensures Grouped(Init(runs) + [Run(x.key, Last(runs).filters + [x])], init + [x])
  {
    var n := |runs| - 1;
    var longer := Init(runs) + [Run(x.key, Last(runs).filters + [x])];
    forall i | 0 <= i < |longer| ensures RunIs(longer[i], init + [x]) {
      if i < n {
        RunOfOther(runs[i], init, x);
      } else {
        assert RunIs(runs[n], init);
        WithSnoc(init, x, x.key);
      }
    }
    assert forall i :: 0 <= i < |runs| ==> longer[i].model == runs[i].model;
    assert longer[n].model == x.key;
    AllHaveRuns(runs, longer, init, x);
  }

  /** A key that is not the last one so far, in sorted order, has not occurred at all. */
  lemma NewKeyIsAbove(init: seq<Filter>, x: Filter, f: Filter)
    requires Sorted(init + [x], NameLeq) && f in init && Last(init).key != x.key
    ensures NameLeq(f.key, x.key) && f.key != x.key
  {
    NamesAreOrdered();
    var s := init + [x];
    var i :| 0 <= i < |init| && init[i] == f;
    var n := |init| - 1;
    assert s[i] == f && s[n] == Last(init) && s[n + 1] == x;
    assert i < n ==> NameLeq(s[i].key, s[n].key);
    assert NameLeq(s[n].key, s[n + 1].key);
  }

  /** The models so far are below a new one. */
  lemma NewModelIsAbove(runs: seq<Run>, init: seq<Filter>, x: Filter, i: nat)
    requires Sorted(init + [x], NameLeq) && i < |runs| && RunIs(runs[i], init) && Last(init).key != x.key
    requires init != []
    ensures NameLeq(runs[i].model, x.key) && runs[i].model != x.key
  {
    FirstIsMember(init, runs[i]);
    NewKeyIsAbove(init, x, runs[i].filters[0]);
  }

  lemma NewRun(runs: seq<Run>, init: seq<Filter>, x: Filter)
    requires Sorted(init + [x], NameLeq) && Grouped(runs, init)
    requires runs != [] ==> Last(runs).model != x.key
    ensures Grouped(runs + [Run(x.key, [x])], init + [x])
  {
    forall f | f in init ensures f.key != x.key {
      NewKeyIsAbove(init, x, f);
    }
    NoneOfModel(init, x.key);
    forall i | 0 <= i < |runs| ensures NameLeq(runs[i].model, x.key) && runs[i].model != x.key {
      NewModelIsAbove(runs, init, x, i);
    }
    AddRun(runs, init, x);
  }

  lemma AddRun(runs: seq<Run>, init: seq<Filter>, x: Filter)
    requires RunsOf(runs, init) && With(init, x.key) == []
    requires forall i :: 0 <= i < |runs| ==> runs[i].model != x.key
    ensures RunsOf(runs + [Run(x.key, [x])], init + [x])
  {
    var run := Run(x.key, [x]);
    var more := runs + [run];
    WithSnoc(init, x, x.key);
    assert RunIs(run, init + [x]);
    forall i | 0 <= i < |more| ensures RunIs(more[i], init + [x]) {
      if i < |runs| { RunOfOther(runs[i], init, x); }
    }
    DistinctSnoc(runs, run);
    assert more[|runs|].model == x.key;
    AllHaveRuns(runs, more, init, x);
  }

  lemma DistinctSnoc(runs: seq<Run>, run: Run)
    requires DistinctModels(runs) && forall i :: 0 <= i < |runs| ==> runs[i].model != run.model
    ensures DistinctModels(runs + [run])
  {
  }

  lemma FirstIsMember(s: seq<Filter>, run: Run)
    requires run.filters != [] && run.filters == With(s, run.model)
    ensures run.filters[0] in s && run.filters[0].key == run.model
  {
    WithMember(s, run.model, run.filters[0]);
  }

  lemma {:induction false} WithMember(s: seq<Filter>, k: Name, f: Filter)
    ensures f in With(s, k) <==> f in s && f.key == k
  {
    if s != [] {
      WithMember(Init(s), k, f);
      assert s == Init(s) + [Last(s)];
    }
  }

  // ------------------------------------------------------------ the compiler and what its output means

  /** An operator with a comparison sign in it: a range operator. Inequality and `like` have none. */
  predicate Ranged(op: string) {
    '>' in op || '<' in op
  }

  function ToGroup(filters: seq<Filter>): Group {
    if exists f :: f in filters && Ranged(f.value.op) then And(filters) else Or(filters)
  }

  function ToGroups(runs: seq<Run>): (r: seq<Group>)
    ensures |r| == |runs|
    ensures forall i :: 0 <= i < |runs| ==> r[i] == ToGroup(runs[i].filters)
  {
    if runs == [] then [] else ToGroups(Init(runs)) + [ToGroup(Last(runs).filters)]
  }

  function Spec(filters: seq<Filter>): (r: seq<Group>) {
    ToGroups(GroupBy(Sort(filters, NameLeq)))
  }

  predicate GroupAccepts(g: Group, holds: Filter -> bool) {
    match g
    case And(filters) => forall f :: f in filters ==> holds(f)
    case Or(filters) => exists f :: f in filters && holds(f)
  }

  /** What the nested specification says of a row on which `holds` tells the single filters. */
  predicate Accepts(spec: seq<Group>, holds: Filter -> bool) {
    forall i :: 0 <= i < |spec| ==> GroupAccepts(spec[i], holds)
  }

  /** What was asked of one model. */
  ghost predicate ModelMet(filters: seq<Filter>, model: Name, holds: Filter -> bool) {
    if exists f :: f in filters && f.key == model && ('>' in f.value.op || '<' in f.value.op)
    then forall f :: f in filters && f.key == model ==> holds(f)
    else exists f :: f in filters && f.key == model && holds(f)
  }

  /** What was asked: every model that occurs is met. */
  ghost predicate Wanted(filters: seq<Filter>, holds: Filter -> bool) {
    forall f :: f in filters ==> ModelMet(filters, f.key, holds)
  }

  /** One group for each model, and the groups partition the filters. */
  lemma OneGroupPerModel(filters: seq<Filter>)
    ensures RunsOf(GroupBy(Sort(filters, NameLeq)), filters)
    ensures Ascending(GroupBy(Sort(filters, NameLeq)))
    ensures multiset(Ungroup(GroupBy(Sort(filters, NameLeq)))) == multiset(filters)
  {
    NamesAreOrdered();
    var sorted := Sort(filters, NameLeq);
    SortIsSorted(filters, NameLeq);
    SortIsPermutation(filters, NameLeq);
    SortedAreGrouped(sorted);
    UngroupUndoesGroupBy(sorted);
    var runs: seq<Run> := GroupBy(sorted);
    forall i | 0 <= i < |runs| ensures RunIs(runs[i], filters) {
      assert RunIs(runs[i], sorted);
      SortIsStable(filters, NameLeq, runs[i].model);
    }
    forall f | f in filters ensures HasRun(runs, f.key) {
      SortKeepsMembers(filters, NameLeq, f);
    }
  }

  lemma GroupMeansModel(filters: seq<Filter>, run: Run, holds: Filter -> bool)
    requires run.filters == With(filters, run.model)
    ensures GroupAccepts(ToGroup(run.filters), holds) <==> ModelMet(filters, run.model, holds)
  {
    forall f ensures f in run.filters <==> f in filters && f.key == run.model {
      WithMember(filters, run.model, f);
    }
  }

  /** The specification accepts exactly the rows that were asked for. */
  lemma SpecMeansWanted(filters: seq<Filter>, holds: Filter -> bool)
    ensures Accepts(Spec(filters), holds) <==> Wanted(filters, holds)
  {
    OneGroupPerModel(filters);
    var runs: seq<Run> := GroupBy(Sort(filters, NameLeq));
    var spec := Spec(filters);
    forall i | 0 <= i < |runs| ensures GroupAccepts(spec[i], holds) <==> ModelMet(filters, runs[i].model, holds) {
      GroupMeansModel(filters, runs[i], holds);
    }
    if Accepts(spec, holds) {
      forall f | f in filters ensures ModelMet(filters, f.key, holds) {
        assert HasRun(runs, f.key);
        var i :| 0 <= i < |runs| && runs[i].model == f.key;
        assert GroupAccepts(spec[i], holds);
      }
    }
    if Wanted(filters, holds) {
      forall i | 0 <= i < |spec| ensures GroupAccepts(spec[i], holds) {
        FirstIsMember(filters, runs[i]);
      }
    }
  }

  function Compile(model: Name, triples: seq<Triple>, resolve: string -> Option<Name>): (r: Result<seq<Group>, Error>) {
    match ToFilters(model, triples, resolve)
    case Err(e) => Err(e)
    case Ok(filters) => Ok(Spec(filters))
  }

  /** Only which triples are given counts, not their order or number: success and meaning stay the same. */
  lemma OrderDoesNotMatter(model: Name, a: seq<Triple>, b: seq<Triple>, resolve: string -> Option<Name>, holds: Filter -> bool)
    requires forall t :: t in a <==> t in b
    ensures Compile(model, a, resolve).Ok? == Compile(model, b, resolve).Ok?
    ensures Compile(model, a, resolve).Ok? ==>
      (Accepts(Compile(model, a, resolve).value, holds) <==> Accepts(Compile(model, b, resolve).value, holds))
  {
    OkWhenAllAre(model, a, resolve);
    OkWhenAllAre(model, b, resolve);
    if Compile(model, a, resolve).Ok? {
      var fa, fb := ToFilters(model, a, resolve).value, ToFilters(model, b, resolve).value;
      forall f ensures f in fa <==> f in fb {
        FilterOf(model, a, resolve, f);
        FilterOf(model, b, resolve, f);
      }
      SpecMeansWanted(fa, holds);
      SpecMeansWanted(fb, holds);
      SameFiltersSameWish(fa, fb, holds);
    }
  }

  lemma SameFiltersSameWish(fa: seq<Filter>, fb: seq<Filter>, holds: Filter -> bool)
    requires forall f :: f in fa <==> f in fb
    ensures Wanted(fa, holds) <==> Wanted(fb, holds)
  {
    forall m ensures ModelMet(fa, m, holds) <==> ModelMet(fb, m, holds) {
    }
  }

  /** The first loop: the filters of the triples, as far as the shortest list reaches. */
  method ReadFilters(model: Name, fields: seq<string>, ops: seq<string>, values: seq<string>, resolve: string -> Option<Name>)
    returns (result: Result<seq<Filter>, Error>)
    ensures result == ToFilters(model, Zip(fields, ops, values), resolve)
  {
    ghost var triples := Zip(fields, ops, values);
    var filters: seq<Filter> := [];
    if fields != [] && ops != [] && values != [] {
      var i := 0;
      while i < |fields| && i < |ops| && i < |values|
        invariant 0 <= i <= |triples|
        invariant ToFilters(model, triples[..i], resolve) == Ok(filters)
      {
        assert Init(triples[..i + 1]) == triples[..i] && Last(triples[..i + 1]) == triples[i];
        var filter := ToFilter(model, Triple(fields[i], ops[i], values[i]), resolve);
        if filter.Err? {
          FirstErrorWins(model, triples, resolve, i + 1);
          return Err(filter.error);
        }
        filters := filters + [filter.value];
        i := i + 1;
      }
      assert triples[..i] == triples;
    }
    return Ok(filters);
  }

  /** The inner loop: whether some filter forces "and". */
  method ForceAnd(filters: seq<Filter>) returns (forceAnd: bool)
    ensures forceAnd <==> exists f :: f in filters && ('>' in f.value.op || '<' in f.value.op)
  {
    forceAnd := false;
    for n := 0 to |filters|
      invariant forceAnd <==> exists f :: f in filters[..n] && Ranged(f.value.op)
    {
      if Ranged(filters[n].value.op) {
        forceAnd := true;
      }
    }
  }

  /** The second loop: every run becomes an "and" or an "or". */
  method BuildGroups(runs: seq<Run>) returns (spec: seq<Group>)
    ensures spec == ToGroups(runs)
  {
    spec := [];
    for g := 0 to |runs|
      invariant spec == ToGroups(runs[..g])
    {
      assert Init(runs[..g + 1]) == runs[..g];
      var forceAnd := ForceAnd(runs[g].filters);
      spec := spec + [if forceAnd then And(runs[g].filters) else Or(runs[g].filters)];
    }
    assert runs[..|runs|] == runs;
  }

  /** The specification means what the filters ask for, on every row. */
  ghost predicate MeansWanted(spec: seq<Group>, filters: seq<Filter>) {
    forall holds :: Accepts(spec, holds) <==> Wanted(filters, holds)
  }

  lemma SpecMeansWantedEverywhere(filters: seq<Filter>)
    ensures MeansWanted(Spec(filters), filters)
  {
    forall holds ensures Accepts(Spec(filters), holds) <==> Wanted(filters, holds) {
      SpecMeansWanted(filters, holds);
    }
  }

  /** Builds the filters, sorts and groups them by model, and turns every group into an "and" or an "or". */
  method CreateFilterSpec(model: Name, fields: seq<string>, ops: seq<string>, values: seq<string>, resolve: string -> Option<Name>)
    returns (result: Result<seq<Group>, Error>)
    ensures result == Compile(model, Zip(fields, ops, values), resolve)
    ensures result.Ok? <==> forall t :: t in Zip(fields, ops, values) ==> ToFilter(model, t, resolve).Ok?
    ensures result.Ok? ==> MeansWanted(result.value, ToFilters(model, Zip(fields, ops, values), resolve).value)
  {
    OkWhenAllAre(model, Zip(fields, ops, values), resolve);
    var read := ReadFilters(model, fields, ops, values, resolve);
    if read.Err? {
      return Err(read.error);
    }
    SpecMeansWantedEverywhere(read.value);
    var spec := BuildGroups(GroupBy(Sort(read.value, NameLeq)));
    return Ok(spec);
  }

  lemma {:induction false} FirstErrorWins(model: Name, triples: seq<Triple>, resolve: string -> Option<Name>, n: nat)
    requires n <= |triples| && ToFilters(model, triples[..n], resolve).Err?
    ensures ToFilters(model, triples, resolve) == ToFilters(model, triples[..n], resolve)
    decreases |triples|
  {
    if n < |triples| {
      assert Init(triples)[..n] == triples[..n];
      FirstErrorWins(model, Init(triples), resolve, n);
    } else {
      assert triples[..n] == triples;
    }
  }
}
