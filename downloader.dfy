/** `audioset_dl`: build the catalog, resolve the class names, filter, select, and
    submit one `_download` job per selected row, in selection order. */
module Downloader {
  import opened Outcomes
  import opened Text
  import opened Ontology
  import opened Catalog
  import opened Query
  import opened Selection
  import opened Dispatch

  /** The keyword arguments of `audioset_dl`. */
  datatype Args = Args(
    outputDir: string,
    classNames: seq<string>,
    classUnion: bool,
    mixed: bool,
    excludeEval: bool,
    excludeBalanced: bool,
    excludeUnbalanced: bool,
    nExamples: Option<int>,
    fullSource: bool,
    mostViewed: bool,
    mostLiked: bool,
    cookiesFile: Option<string>)

  /** The parsed data files: the ontology and the three partitions. */
  datatype Inputs = Inputs(
    ontology: seq<Entry>,
    eval: seq<Segment>,
    balanced: seq<Segment>,
    unbalanced: seq<Segment>)

  function CatalogOf(a: Args, d: Inputs): seq<Row> {
    Assemble(d.eval, d.balanced, d.unbalanced, a.excludeEval, a.excludeBalanced, a.excludeUnbalanced)
  }

  predicate HasLabels(a: Args) {
    HasLabelColumn(a.excludeEval, a.excludeBalanced, a.excludeUnbalanced)
  }

  /** `mixed or len(class_name) > 1`: the pattern search is used for `mixed` or several names. */
  predicate SearchPath(a: Args) {
    a.mixed || |a.classNames| > 1
  }

  predicate AllResolve(ontology: seq<Entry>, names: seq<string>) {
    forall i :: 0 <= i < |names| ==> Resolve(ontology, names[i]).Ok?
  }

  /** The id each name resolves to, in the order of the names. */
  function Ids(ontology: seq<Entry>, names: seq<string>): (ids: seq<string>)
    requires AllResolve(ontology, names)
    ensures |ids| == |names|
  {
    seq(|names|, i requires 0 <= i < |names| && AllResolve(ontology, names) => Resolve(ontology, names[i]).value)
  }

  /** The `cls_exmp` row test for the resolved ids. The exact-match path always
      has one id (with none it stops at `NoClassName`); the `|ids| == 0` case only
      makes the function total. */
  function TestFor(a: Args, ids: seq<string>): LabelTest {
    if SearchPath(a) || |ids| == 0 then SearchFor(PatternOf(ids, a.classUnion)) else FullMatch(ids[0])
  }

  /** The `n_examples` / `most_viewed` / `most_liked` choice, as a relation between the
      filtered rows and the selected ones. */
  predicate SelectionOf(sel: seq<Row>, s: seq<Row>, a: Args) {
    match a.nExamples
    case None => sel == s
    case Some(k) =>
      if a.mostViewed then TopRows(sel, s, k, Views)
      else if a.mostLiked then TopRows(sel, s, k, Likes)
      else |sel| == k && multiset(sel) <= multiset(s)
  }

  /** A random sample is drawn and its size is out of range. */
  predicate BadSample(s: seq<Row>, a: Args) {
    a.nExamples.Some? && !a.mostViewed && !a.mostLiked && !(0 <= a.nExamples.value <= |s|)
  }

  /** `_download` on one row, given the resolved ids: it fetches when `mixed`, or
      when exactly one id was asked for and the labels are that id. */
  predicate DispatchedAsWritten(job: Job, row: Row, a: Args, ids: seq<string>) {
    && job.row == row
    && (job.Fetch? <==> a.mixed || (|ids| == 1 && row.seg.labels == ids[0]))
    && (job.Fetch? ==> job.url == row.seg.ytid && OptionsFor(job.opts, a.outputDir, row, a.fullSource, a.cookiesFile))
  }

  function Rows(jobs: seq<Job>): (rows: seq<Row>)
    ensures |rows| == |jobs|
  {
    seq(|jobs|, i requires 0 <= i < |jobs| => jobs[i].row)
  }

  /** What the name resolution produces: `cls_id` and the row test, with the resolved ids. */
  datatype ClassQuery = ClassQuery(clsId: ClassIds, test: LabelTest, ids: seq<string>)

  /** `cls_id` as the source holds it: the list of ids on the search path, else the one id. */
  predicate ClsIdFor(clsId: ClassIds, a: Args, ids: seq<string>) {
    && |ids| == |a.classNames|
    && if SearchPath(a) then clsId == Many(ids) else |ids| == 1 && clsId == One(ids[0])
  }

  /** Resolve the names into `cls_id` and build the `cls_exmp` row test. */
  method BuildQuery(a: Args, ontology: seq<Entry>) returns (r: Result<ClassQuery>)
    ensures !a.mixed && a.classNames == [] ==> r == Err(NoClassName)
    ensures !AllResolve(ontology, a.classNames) ==> r == Err(LabelNotUnique)
    ensures r.Ok? <==> (a.mixed || a.classNames != []) && AllResolve(ontology, a.classNames)
    ensures r.Ok? ==>
      && r.value.ids == Ids(ontology, a.classNames)
      && r.value.test == TestFor(a, r.value.ids)
      && ClsIdFor(r.value.clsId, a, r.value.ids)
  {
    if a.mixed || |a.classNames| > 1 {
      var resolved := ResolveAll(ontology, a.classNames);
      if resolved.Err? {
        return Err(resolved.error);
      }
      var ids := resolved.value;
      assert ids == Ids(ontology, a.classNames);
      return Ok(ClassQuery(Many(ids), SearchFor(PatternOf(ids, a.classUnion)), ids));
    } else {
      if |a.classNames| == 0 {
        return Err(NoClassName);
      }
      var id := Resolve(ontology, a.classNames[0]);
      if id.Err? {
        return Err(id.error);
      }
      assert [id.value] == Ids(ontology, a.classNames);
      return Ok(ClassQuery(One(id.value), FullMatch(id.value), [id.value]));
    }
  }

  /** `[pool.submit(_download, exmp) for exmp in subset.itertuples()]`: one job per
      selected row, in order. */
  method SubmitAll(rows: seq<Row>, q: ClassQuery, a: Args) returns (futures: seq<Job>)
    requires ClsIdFor(q.clsId, a, q.ids)
    ensures Rows(futures) == rows
    ensures forall k :: 0 <= k < |futures| ==> DispatchedAsWritten(futures[k], rows[k], a, q.ids)
  {
    futures := [];
    for i := 0 to |rows|
      invariant |futures| == i
      invariant forall k :: 0 <= k < i ==> DispatchedAsWritten(futures[k], rows[k], a, q.ids)
    {
      var job := Download(rows[i], q.clsId, a.mixed, a.outputDir, a.fullSource, a.cookiesFile);
      futures := futures + [job];
    }
  }

  /** The inputs get past every fatal check before selection. */
  predicate Runnable(a: Args, d: Inputs) {
    (a.mixed || a.classNames != []) && AllResolve(d.ontology, a.classNames) && HasLabels(a)
  }

  /** The rows that pass the filter. */
  function Filtered(a: Args, d: Inputs): seq<Row>
    requires AllResolve(d.ontology, a.classNames)
  {
    Filter(CatalogOf(a, d), TestFor(a, Ids(d.ontology, a.classNames)))
  }

  /** What a successful run submits: the selection of the filtered rows, each
      handed to `_download`. */
  predicate RunOutcome(a: Args, d: Inputs, jobs: seq<Job>)
    requires AllResolve(d.ontology, a.classNames)
  {
    && SelectionOf(Rows(jobs), Filtered(a, d), a)
    && forall i :: 0 <= i < |jobs| ==> DispatchedAsWritten(jobs[i], jobs[i].row, a, Ids(d.ontology, a.classNames))
  }

  method AudiosetDl(a: Args, d: Inputs) returns (r: Result<seq<Job>>)
    ensures !a.mixed && a.classNames == [] ==> r == Err(NoClassName)
    ensures !AllResolve(d.ontology, a.classNames) ==> r == Err(LabelNotUnique)
    ensures (a.mixed || a.classNames != []) && AllResolve(d.ontology, a.classNames) && !HasLabels(a)
      ==> r == Err(NoLabelColumn)
    ensures Runnable(a, d) ==> (r.Ok? <==> !BadSample(Filtered(a, d), a))
    ensures Runnable(a, d) && BadSample(Filtered(a, d), a) ==>
      r == Err(if a.nExamples.value < 0 then NegativeSampleSize else SampleLargerThanPopulation)
    ensures r.Ok? ==> Runnable(a, d) && RunOutcome(a, d, r.value)
  {
    var audioset := Assemble(d.eval, d.balanced, d.unbalanced, a.excludeEval, a.excludeBalanced, a.excludeUnbalanced);
    var query := BuildQuery(a, d.ontology);
    if query.Err? {
      return Err(query.error);
    }
    if !HasLabelColumn(a.excludeEval, a.excludeBalanced, a.excludeUnbalanced) {
      return Err(NoLabelColumn);
    }
    var subset := Filter(audioset, query.value.test);
    var selected := Select(subset, a.nExamples, a.mostViewed, a.mostLiked);
    if selected.Err? {
      return Err(selected.error);
    }
    var futures := SubmitAll(selected.value, query.value, a);
    return Ok(futures);
  }

  /** Every row a run submits is a catalog row that passes the filter. */
  lemma {:induction false} RunRowsFromCatalog(a: Args, d: Inputs, jobs: seq<Job>)
    requires Runnable(a, d) && RunOutcome(a, d, jobs)
    ensures forall i :: 0 <= i < |jobs| ==> jobs[i].row in CatalogOf(a, d)
    ensures forall i :: 0 <= i < |jobs| ==>
      Passes(TestFor(a, Ids(d.ontology, a.classNames)), jobs[i].row.seg.labels)
  {
    var s := Filtered(a, d);
    var rows := Rows(jobs);
    assert multiset(rows) <= multiset(s);
    assert forall i :: 0 <= i < |jobs| ==> rows[i] == jobs[i].row;
    SelectedRowsPass(rows, CatalogOf(a, d), TestFor(a, Ids(d.ontology, a.classNames)));
  }

  /** Several class names without `mixed`: `cls_id` is a list, no label string equals
      it, and every submitted job returns without downloading. */
  lemma RunSkipsAllForSeveralNames(a: Args, d: Inputs, jobs: seq<Job>)
    requires Runnable(a, d) && RunOutcome(a, d, jobs)
    requires !a.mixed && |a.classNames| > 1
    ensures forall i :: 0 <= i < |jobs| ==> jobs[i].Skipped?
  {
  }

  /** One class name without `mixed`: every submitted row is labelled with exactly
      that class's id and is fetched. */
  lemma RunFetchesExactLabels(a: Args, d: Inputs, jobs: seq<Job>)
    requires Runnable(a, d) && RunOutcome(a, d, jobs)
    requires !a.mixed && |a.classNames| == 1
    ensures forall i :: 0 <= i < |jobs| ==>
      jobs[i].Fetch? && jobs[i].row.seg.labels == Resolve(d.ontology, a.classNames[0]).value
  {
    RunRowsFromCatalog(a, d, jobs);
  }

  /** The intersection path: every submitted row's labels contain the id of every
      class name. */
  lemma RunRowsContainAllIds(a: Args, d: Inputs, jobs: seq<Job>)
    requires Runnable(a, d) && RunOutcome(a, d, jobs)
    requires SearchPath(a) && !a.classUnion
    ensures forall i, j :: 0 <= i < |jobs| && 0 <= j < |a.classNames| ==>
      Contains(jobs[i].row.seg.labels, Resolve(d.ontology, a.classNames[j]).value)
  {
    var ids := Ids(d.ontology, a.classNames);
    RunRowsFromCatalog(a, d, jobs);
    forall i, j | 0 <= i < |jobs| && 0 <= j < |a.classNames|
      ensures Contains(jobs[i].row.seg.labels, Resolve(d.ontology, a.classNames[j]).value)
    {
      IntersectionMeansAll(ids, jobs[i].row.seg.labels);
      assert ids[j] in ids;
    }
  }

  /** `mixed` with union of two or more names and no count: the whole catalog is
      submitted and every row is fetched. */
  lemma RunUnionFetchesWholeCatalog(a: Args, d: Inputs, jobs: seq<Job>)
    requires Runnable(a, d) && RunOutcome(a, d, jobs)
    requires a.mixed && a.classUnion && |a.classNames| >= 2 && a.nExamples.None?
    ensures Rows(jobs) == CatalogOf(a, d)
    ensures forall i :: 0 <= i < |jobs| ==> jobs[i].Fetch?
  {
    UnionKeepsWholeCatalog(CatalogOf(a, d), Ids(d.ontology, a.classNames));
  }

  /** Rows drawn from the filtered rows are catalog rows that pass the test. */
  lemma SelectedRowsPass(rows: seq<Row>, audioset: seq<Row>, t: LabelTest)
    requires multiset(rows) <= multiset(Filter(audioset, t))
    ensures forall k :: 0 <= k < |rows| ==> rows[k] in audioset && Passes(t, rows[k].seg.labels)
  {
    FilterCount(audioset, t);
    forall k | 0 <= k < |rows| ensures rows[k] in audioset && Passes(t, rows[k].seg.labels) {
      assert rows[k] in multiset(rows);
      assert multiset(Filter(audioset, t))[rows[k]] > 0;
    }
  }

  /** With two or more ids joined by `'||'`, the filter keeps the whole catalog. */
  lemma UnionKeepsWholeCatalog(audioset: seq<Row>, ids: seq<string>)
    requires |ids| >= 2
    ensures Filter(audioset, SearchFor(PatternOf(ids, true))) == audioset
  {
    var t := SearchFor(PatternOf(ids, true));
    forall k | 0 <= k < |audioset| ensures Passes(t, audioset[k].seg.labels) {
      UnionMatchesEverything(ids, audioset[k].seg.labels);
    }
    FilterAllPass(audioset, t);
  }
}
