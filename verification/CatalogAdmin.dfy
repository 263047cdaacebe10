/** The administration of the semantic catalogue: which creations, updates and deletions are
    accepted, and that references between its rows stay intact. */
module CatalogAdmin {
  import opened Wrappers
  import opened AsciiText
  import opened Planner
  import Sql
  import Literals

  // ---- Rows; `details` stands for the columns no reference runs through ----

  datatype MetricRow = MetricRow(
    grain: string, allowedDimensions: seq<string>, allowedFilters: seq<string>, isActive: bool, details: string)

  datatype DimensionRow = DimensionRow(isActive: bool, details: string)

  datatype Kind = MetricKind | DimensionKind | FilterKind

  datatype TermRow = TermRow(kind: Kind, key: string, isActive: bool)

  /** An example or an approved template. */
  datatype UseRow =
    UseRow(metric: string, dimensions: seq<string>, filters: seq<string>, isActive: bool, details: string)

  datatype Tables = Tables(
    metrics: map<string, MetricRow>, dimensions: map<string, DimensionRow>,
    terms: map<string, TermRow>, examples: map<nat, UseRow>, templates: map<string, UseRow>)

  datatype AdminError = Invalid | AlreadyExists | NotFound | Referenced

  /** A row as given, and whether the checks on its own text pass. */
  datatype Given<T> = Given(row: T, wellFormed: bool)

  datatype Step =
    | CreateMetric(key: string, metric: Given<MetricRow>)
    | UpdateMetric(key: string, metric: Given<MetricRow>)
    | DeleteMetric(key: string)
    | CreateDimension(key: string, dimension: Given<DimensionRow>)
    | UpdateDimension(key: string, dimension: Given<DimensionRow>)
    | DeleteDimension(key: string)
    | CreateTerm(term: string, mapping: TermRow)
    | UpdateTerm(term: string, newTerm: string, mapping: TermRow)
    | DeleteTerm(term: string)
    | CreateExample(id: nat, use: Given<UseRow>)
    | UpdateExample(id: nat, use: Given<UseRow>)
    | DeleteExample(id: nat)
    | CreateTemplate(key: string, use: Given<UseRow>)
    | UpdateTemplate(key: string, use: Given<UseRow>)
    | DeleteTemplate(key: string)

  // ---- Checks ----

  /** The pattern `^[a-z][a-z0-9_]*$`, whose end also stands before a final newline. */
  predicate SafeKey(key: string) {
    KeyWord(if key != "" && key[|key| - 1] == '\n' then key[..|key| - 1] else key)
  }

  predicate KeyWord(body: string) {
    && body != "" && IsLower(body[0])
    && forall i :: 0 <= i < |body| ==> IsLower(body[i]) || IsDigit(body[i]) || body[i] == '_'
  }

  function ActiveMetrics(s: Tables): set<string> { set k | k in s.metrics && s.metrics[k].isActive }

  function ActiveDimensions(s: Tables): set<string> { set k | k in s.dimensions && s.dimensions[k].isActive }

  predicate AllIn(keys: seq<string>, pool: set<string>) { forall k :: k in keys ==> k in pool }

  predicate ValidMetric(s: Tables, key: string, g: Given<MetricRow>) {
    && SafeKey(key) && g.wellFormed && g.row.grain in {ORDER.key, TENDER.key}
    && AllIn(g.row.allowedDimensions, ActiveDimensions(s)) && AllIn(g.row.allowedFilters, ActiveDimensions(s))
  }

  predicate ValidTerm(s: Tables, term: string, t: TermRow) {
    && Lower(Strip(term)) != ""
    && Strip(t.key) in (if t.kind.MetricKind? then ActiveMetrics(s) else ActiveDimensions(s))
  }

  predicate ValidUse(s: Tables, g: Given<UseRow>) {
    && g.wellFormed && g.row.metric in ActiveMetrics(s)
    && AllIn(g.row.dimensions, ActiveDimensions(s)) && AllIn(g.row.filters, ActiveDimensions(s))
  }

  predicate MetricReferenced(s: Tables, key: string) {
    || (exists i :: i in s.examples && s.examples[i].metric == key)
    || (exists k :: k in s.templates && s.templates[k].metric == key)
    || (exists t :: t in s.terms && s.terms[t].kind.MetricKind? && s.terms[t].key == key)
  }

  predicate InUse(u: UseRow, dimension: string) { dimension in u.dimensions || dimension in u.filters }

  predicate DimensionReferenced(s: Tables, key: string) {
    || (exists m :: m in s.metrics && (key in s.metrics[m].allowedDimensions || key in s.metrics[m].allowedFilters))
    || (exists t :: t in s.terms && s.terms[t].kind.DimensionKind? && s.terms[t].key == key)
    || (exists i :: i in s.examples && InUse(s.examples[i], key))
    || (exists k :: k in s.templates && InUse(s.templates[k], key))
  }

  // ---- Steps ----

  function Apply(s: Tables, step: Step): Result<Tables, AdminError> {
    match step
    case CreateMetric(key, g) =>
      if !ValidMetric(s, key, g) then Err(Invalid)
      else if key in s.metrics then Err(AlreadyExists)
      else Ok(s.(metrics := s.metrics[key := g.row]))
    case UpdateMetric(key, g) =>
      if key !in s.metrics then Err(NotFound)
      else if !ValidMetric(s, key, g) then Err(Invalid)
      else Ok(s.(metrics := s.metrics[key := g.row]))
    case DeleteMetric(key) =>
      if key !in s.metrics then Err(NotFound)
      else if MetricReferenced(s, key) then Err(Referenced)
      else Ok(s.(metrics := s.metrics - {key}))
    case CreateDimension(key, g) =>
      if !SafeKey(key) || !g.wellFormed then Err(Invalid)
      else if key in s.dimensions then Err(AlreadyExists)
      else Ok(s.(dimensions := s.dimensions[key := g.row]))
    case UpdateDimension(key, g) =>
      if key !in s.dimensions then Err(NotFound)
      else if !SafeKey(key) || !g.wellFormed then Err(Invalid)
      else Ok(s.(dimensions := s.dimensions[key := g.row]))
    case DeleteDimension(key) =>
      if key !in s.dimensions then Err(NotFound)
      else if DimensionReferenced(s, key) then Err(Referenced)
      else Ok(s.(dimensions := s.dimensions - {key}))
    case CreateTerm(term, t) =>
      if !ValidTerm(s, term, t) then Err(Invalid)
      else if Lower(Strip(term)) in s.terms then Err(AlreadyExists)
      else Ok(s.(terms := s.terms[Lower(Strip(term)) := t]))
    case UpdateTerm(term, newTerm, t) =>
      var was, now := Lower(Strip(term)), Lower(Strip(newTerm));
      if was !in s.terms then Err(NotFound)
      else if !ValidTerm(s, newTerm, t) then Err(Invalid)
      else if now != was && now in s.terms then Err(AlreadyExists)
      else Ok(s.(terms := (s.terms - {was})[now := t]))
    case DeleteTerm(term) =>
      if Lower(Strip(term)) !in s.terms then Err(NotFound)
      else Ok(s.(terms := s.terms - {Lower(Strip(term))}))
    case CreateExample(id, g) =>
      if !ValidUse(s, g) then Err(Invalid)
      else if id in s.examples then Err(AlreadyExists)
      else Ok(s.(examples := s.examples[id := g.row]))
    case UpdateExample(id, g) =>
      if id !in s.examples then Err(NotFound)
      else if !ValidUse(s, g) then Err(Invalid)
      else Ok(s.(examples := s.examples[id := g.row]))
    case DeleteExample(id) =>
      if id !in s.examples then Err(NotFound) else Ok(s.(examples := s.examples - {id}))
    case CreateTemplate(key, g) =>
      if !SafeKey(key) || !ValidUse(s, g) then Err(Invalid)
      else if key in s.templates then Err(AlreadyExists)
      else Ok(s.(templates := s.templates[key := g.row]))
    case UpdateTemplate(key, g) =>
      if key !in s.templates then Err(NotFound)
      else if !SafeKey(key) || !ValidUse(s, g) then Err(Invalid)
      else Ok(s.(templates := s.templates[key := g.row]))
    case DeleteTemplate(key) =>
      if key !in s.templates then Err(NotFound) else Ok(s.(templates := s.templates - {key}))
  }

  // ---- What a step does, and when it is accepted ----

  predicate KeyChar(c: char) { 'a' <= c <= 'z' || '0' <= c <= '9' || c == '_' }

  /** The first n characters are a key, and at most a newline follows. */
  predicate KeyUpTo(key: string, n: int) {
    && 0 < n <= |key| && (n == |key| || (n == |key| - 1 && key[n] == '\n'))
    && 'a' <= key[0] <= 'z' && forall i :: 0 <= i < n ==> KeyChar(key[i])
  }

  /** A key is a lower-case letter and then lower-case letters, digits and underscores, perhaps with
      a newline at the end. */
  lemma SafeKeyMeans(key: string)
    ensures SafeKey(key) <==> exists n :: KeyUpTo(key, n)
  {
    if key != "" {
      var n := if key[|key| - 1] == '\n' then |key| - 1 else |key|;
      var body := key[..n];
      assert body == if key[|key| - 1] == '\n' then key[..|key| - 1] else key;
      if KeyUpTo(key, n) {
        forall i | 0 <= i < n ensures IsLower(body[i]) || IsDigit(body[i]) || body[i] == '_' {
          assert KeyChar(key[i]);
        }
      }
      if SafeKey(key) {
        assert KeyWord(body);
        forall i | 0 <= i < n ensures KeyChar(key[i]) {
          assert IsLower(body[i]) || IsDigit(body[i]) || body[i] == '_';
        }
        assert KeyUpTo(key, n);
      }
      forall m | KeyUpTo(key, m) ensures m == n {
        assert KeyChar(key[m - 1]);
      }
    }
  }

  /** The row is under its key, and the other keys have what they had. */
  ghost predicate Put<K, V>(before: map<K, V>, after: map<K, V>, key: K, row: V) {
    && after.Keys == before.Keys + {key} && after[key] == row
    && forall k :: k in before && k != key ==> after[k] == before[k]
  }

  ghost predicate Dropped<K, V>(before: map<K, V>, after: map<K, V>, key: K) {
    after.Keys == before.Keys - {key} && forall k :: k in after ==> after[k] == before[k]
  }

  /** A term's row moves to its new text. */
  ghost predicate Moved<K, V>(before: map<K, V>, after: map<K, V>, was: K, now: K, row: V) {
    && after.Keys == before.Keys - {was} + {now} && after[now] == row
    && forall k :: k in before && k !in {was, now} ==> after[k] == before[k]
  }

  /** The step changed no other table than its own. */
  ghost predicate OnlyIts(s: Tables, t: Tables, step: Step) {
    && (step.CreateMetric? || step.UpdateMetric? || step.DeleteMetric? || t.metrics == s.metrics)
    && (step.CreateDimension? || step.UpdateDimension? || step.DeleteDimension? || t.dimensions == s.dimensions)
    && (step.CreateTerm? || step.UpdateTerm? || step.DeleteTerm? || t.terms == s.terms)
    && (step.CreateExample? || step.UpdateExample? || step.DeleteExample? || t.examples == s.examples)
    && (step.CreateTemplate? || step.UpdateTemplate? || step.DeleteTemplate? || t.templates == s.templates)
  }

  /** An accepted step leaves the row it was given under its key, or none after a deletion, and
      everything else as it was. */
  lemma AcceptedStepStores(s: Tables, step: Step)
    requires Apply(s, step).Ok?
    ensures OnlyIts(s, Apply(s, step).value, step)
    ensures var t := Apply(s, step).value;
      match step
      case CreateMetric(key, g) => Put(s.metrics, t.metrics, key, g.row)
      case UpdateMetric(key, g) => Put(s.metrics, t.metrics, key, g.row)
      case DeleteMetric(key) => Dropped(s.metrics, t.metrics, key)
      case CreateDimension(key, g) => Put(s.dimensions, t.dimensions, key, g.row)
      case UpdateDimension(key, g) => Put(s.dimensions, t.dimensions, key, g.row)
      case DeleteDimension(key) => Dropped(s.dimensions, t.dimensions, key)
      case CreateTerm(term, row) => Put(s.terms, t.terms, Lower(Strip(term)), row)
      case UpdateTerm(term, newTerm, row) => Moved(s.terms, t.terms, Lower(Strip(term)), Lower(Strip(newTerm)), row)
      case DeleteTerm(term) => Dropped(s.terms, t.terms, Lower(Strip(term)))
      case CreateExample(id, g) => Put(s.examples, t.examples, id, g.row)
      case UpdateExample(id, g) => Put(s.examples, t.examples, id, g.row)
      case DeleteExample(id) => Dropped(s.examples, t.examples, id)
      case CreateTemplate(key, g) => Put(s.templates, t.templates, key, g.row)
      case UpdateTemplate(key, g) => Put(s.templates, t.templates, key, g.row)
      case DeleteTemplate(key) => Dropped(s.templates, t.templates, key)
  {
    hide ValidMetric, ValidTerm, ValidUse, MetricReferenced, DimensionReferenced, SafeKey, Lower, Strip;
  }

  predicate Creates(step: Step) {
    step.CreateMetric? || step.CreateDimension? || step.CreateTerm? || step.CreateExample? || step.CreateTemplate?
  }

  predicate Deletes(step: Step) {
    step.DeleteMetric? || step.DeleteDimension? || step.DeleteTerm? || step.DeleteExample? || step.DeleteTemplate?
  }

  /** There is a row under the key the step addresses. */
  predicate Taken(s: Tables, step: Step) {
    if step.CreateMetric? || step.UpdateMetric? || step.DeleteMetric? then step.key in s.metrics
    else if step.CreateDimension? || step.UpdateDimension? || step.DeleteDimension? then step.key in s.dimensions
    else if step.CreateTerm? || step.UpdateTerm? || step.DeleteTerm? then Lower(Strip(step.term)) in s.terms
    else if step.CreateExample? || step.UpdateExample? || step.DeleteExample? then step.id in s.examples
    else step.key in s.templates
  }

  /** Every key names an active dimension. */
  predicate NameActive(s: Tables, keys: seq<string>) {
    forall k :: k in keys ==> k in s.dimensions && s.dimensions[k].isActive
  }

  predicate UseGiven(s: Tables, g: Given<UseRow>) {
    && g.wellFormed && g.row.metric in s.metrics && s.metrics[g.row.metric].isActive
    && NameActive(s, g.row.dimensions) && NameActive(s, g.row.filters)
  }

  predicate TermGiven(s: Tables, term: string, row: TermRow) {
    && Strip(term) != ""
    && if row.kind.MetricKind? then Strip(row.key) in s.metrics && s.metrics[Strip(row.key)].isActive
       else NameActive(s, [Strip(row.key)])
  }

  /** The row given may be stored: its key and text are in order, and it names only active rows. */
  predicate GivenOk(s: Tables, step: Step) {
    if step.CreateMetric? || step.UpdateMetric? then
      && SafeKey(step.key) && step.metric.wellFormed && step.metric.row.grain in {"order", "tender"}
      && NameActive(s, step.metric.row.allowedDimensions) && NameActive(s, step.metric.row.allowedFilters)
    else if step.CreateDimension? || step.UpdateDimension? then SafeKey(step.key) && step.dimension.wellFormed
    else if step.CreateTerm? then TermGiven(s, step.term, step.mapping)
    else if step.UpdateTerm? then TermGiven(s, step.newTerm, step.mapping)
    else if step.CreateExample? || step.UpdateExample? then UseGiven(s, step.use)
    else if step.CreateTemplate? || step.UpdateTemplate? then SafeKey(step.key) && UseGiven(s, step.use)
    else true
  }

  /** A row refers to the metric or dimension to be deleted, as the deletion looks for references:
      it takes no notice of terms of another kind. */
  predicate LookedFor(s: Tables, step: Step) {
    if step.DeleteMetric? then
      || (exists i :: i in s.examples && s.examples[i].metric == step.key)
      || (exists k :: k in s.templates && s.templates[k].metric == step.key)
      || (exists t :: t in s.terms && s.terms[t].kind == MetricKind && s.terms[t].key == step.key)
    else if step.DeleteDimension? then
      || (exists m :: m in s.metrics && step.key in s.metrics[m].allowedDimensions + s.metrics[m].allowedFilters)
      || (exists i :: i in s.examples && step.key in s.examples[i].dimensions + s.examples[i].filters)
      || (exists k :: k in s.templates && step.key in s.templates[k].dimensions + s.templates[k].filters)
      || (exists t :: t in s.terms && s.terms[t].kind == DimensionKind && s.terms[t].key == step.key)
    else false
  }

  /** A step is accepted exactly if it creates what is not there or changes what is, what it is
      given may be stored, nothing refers to what it deletes, and a term moves to no other's text. */
  lemma AcceptedIff(s: Tables, step: Step)
    ensures Apply(s, step).Ok? <==>
      && (Creates(step) <==> !Taken(s, step)) && GivenOk(s, step) && !LookedFor(s, step)
      && (step.UpdateTerm? ==>
            Lower(Strip(step.newTerm)) == Lower(Strip(step.term)) || Lower(Strip(step.newTerm)) !in s.terms)
  {
    hide SafeKey, Lower, Strip, ValidMetric, ValidUse, ValidTerm, MetricReferenced, DimensionReferenced, GivenOk;
    hide LookedFor;
    ChecksAgree(s, step);
    LookupsAgree(s, step);
  }

  lemma UseAgrees(s: Tables, g: Given<UseRow>)
    ensures ValidUse(s, g) <==> UseGiven(s, g)
  {
  }

  lemma TermAgrees(s: Tables, term: string, row: TermRow)
    ensures ValidTerm(s, term, row) <==> TermGiven(s, term, row)
  {
    hide Lower, Strip;
    BlankTerm(term);
    assert Strip(row.key) in [Strip(row.key)];
  }

  lemma ChecksAgree(s: Tables, step: Step)
    ensures GivenOk(s, step) <==>
      match step
      case CreateMetric(key, g) => ValidMetric(s, key, g)
      case UpdateMetric(key, g) => ValidMetric(s, key, g)
      case CreateDimension(key, g) => SafeKey(key) && g.wellFormed
      case UpdateDimension(key, g) => SafeKey(key) && g.wellFormed
      case CreateTerm(term, row) => ValidTerm(s, term, row)
      case UpdateTerm(_, newTerm, row) => ValidTerm(s, newTerm, row)
      case CreateExample(_, g) => ValidUse(s, g)
      case UpdateExample(_, g) => ValidUse(s, g)
      case CreateTemplate(key, g) => SafeKey(key) && ValidUse(s, g)
      case UpdateTemplate(key, g) => SafeKey(key) && ValidUse(s, g)
      case _ => true
  {
    hide SafeKey, Lower, Strip, ValidUse, UseGiven, ValidTerm, TermGiven;
    if step.CreateTerm? { TermAgrees(s, step.term, step.mapping); }
    if step.UpdateTerm? { TermAgrees(s, step.newTerm, step.mapping); }
    if step.CreateExample? || step.UpdateExample? || step.CreateTemplate? || step.UpdateTemplate? {
      UseAgrees(s, step.use);
    }
  }

  lemma LookupsAgree(s: Tables, step: Step)
    ensures LookedFor(s, step) <==>
      match step
      case DeleteMetric(key) => MetricReferenced(s, key)
      case DeleteDimension(key) => DimensionReferenced(s, key)
      case _ => false
  {
  }

  lemma BlankTerm(term: string)
    ensures Lower(Strip(term)) == "" <==> Strip(term) == ""
  {
    hide Strip;
    assert |Lower(Strip(term))| == |Strip(term)|;
  }

  // ---- References ----

  ghost predicate MetricsSound(s: Tables) {
    forall m :: m in s.metrics ==>
      && SafeKey(m) && s.metrics[m].grain in {ORDER.key, TENDER.key}
      && AllIn(s.metrics[m].allowedDimensions, s.dimensions.Keys)
      && AllIn(s.metrics[m].allowedFilters, s.dimensions.Keys)
  }

  predicate UseSound(s: Tables, u: UseRow) {
    u.metric in s.metrics && AllIn(u.dimensions, s.dimensions.Keys) && AllIn(u.filters, s.dimensions.Keys)
  }

  /** The key as its readers see it, without surrounding spaces, names a row. */
  predicate Resolves(s: Tables, t: TermRow) {
    if t.kind.MetricKind? then Strip(t.key) in s.metrics else Strip(t.key) in s.dimensions
  }

  predicate Tidy(key: string) { Strip(key) == key }

  ghost predicate UsesSound<K>(s: Tables, uses: map<K, UseRow>) {
    forall k :: k in uses ==> UseSound(s, uses[k])
  }

  ghost predicate TermsSound(s: Tables) {
    forall t :: t in s.terms && !s.terms[t].kind.FilterKind? && Tidy(s.terms[t].key) ==> Resolves(s, s.terms[t])
  }

  /** Everything a row refers to is there: for terms, those of metric and dimension kind whose
      key was stored without surrounding spaces. */
  ghost predicate ReferencesIntact(s: Tables) {
    MetricsSound(s) && UsesSound(s, s.examples) && UsesSound(s, s.templates) && TermsSound(s)
  }

  /** With no metric or dimension removed, old references hold. */
  lemma MoreRows(s: Tables, t: Tables)
    requires ReferencesIntact(s) && s.metrics.Keys <= t.metrics.Keys && s.dimensions.Keys <= t.dimensions.Keys
    ensures UsesSound(t, s.examples) && UsesSound(t, s.templates)
    ensures t.terms == s.terms ==> TermsSound(t)
    ensures t.metrics == s.metrics ==> MetricsSound(t)
  {
    hide SafeKey, Strip, Tidy;
  }

  lemma MetricStepKeeps(s: Tables, step: Step)
    requires ReferencesIntact(s) && Apply(s, step).Ok?
    requires step.CreateMetric? || step.UpdateMetric? || step.DeleteMetric?
    ensures ReferencesIntact(Apply(s, step).value)
  {
    hide SafeKey, Strip, Lower, AllIn;
    var t := Apply(s, step).value;
    if step.DeleteMetric? {
      assert forall i :: i in s.examples ==> s.examples[i].metric != step.key;
      assert forall k :: k in s.templates ==> s.templates[k].metric != step.key;
    } else {
      MoreRows(s, t);
      ActiveAreRows(step.metric.row.allowedDimensions, s);
      ActiveAreRows(step.metric.row.allowedFilters, s);
    }
  }

  lemma ActiveAreRows(keys: seq<string>, s: Tables)
    ensures AllIn(keys, ActiveDimensions(s)) ==> AllIn(keys, s.dimensions.Keys)
  {
  }

  lemma DimensionDeleteKeeps(s: Tables, key: string)
    requires ReferencesIntact(s) && key in s.dimensions && !DimensionReferenced(s, key)
    ensures ReferencesIntact(s.(dimensions := s.dimensions - {key}))
  {
    hide SafeKey, Strip, Lower;
    var t := s.(dimensions := s.dimensions - {key});
    assert MetricsSound(t);
    assert forall i :: i in s.examples ==> !InUse(s.examples[i], key);
    assert forall k :: k in s.templates ==> !InUse(s.templates[k], key);
  }

  lemma UseStepKeeps(s: Tables, step: Step)
    requires ReferencesIntact(s) && Apply(s, step).Ok?
    requires step.CreateExample? || step.UpdateExample? || step.CreateTemplate? || step.UpdateTemplate?
    ensures ReferencesIntact(Apply(s, step).value)
  {
    hide SafeKey, Strip, Lower, AllIn;
    MoreRows(s, Apply(s, step).value);
    ActiveAreRows(step.use.row.dimensions, s);
    ActiveAreRows(step.use.row.filters, s);
  }

  lemma StepKeepsReferences(s: Tables, step: Step)
    requires ReferencesIntact(s) && Apply(s, step).Ok?
    ensures ReferencesIntact(Apply(s, step).value)
  {
    hide SafeKey, Strip, Lower, AllIn, MetricsSound, DimensionReferenced;
    match step {
      case CreateMetric(_, _) => MetricStepKeeps(s, step);
      case UpdateMetric(_, _) => MetricStepKeeps(s, step);
      case DeleteMetric(_) => MetricStepKeeps(s, step);
      case CreateDimension(_, _) => MoreRows(s, Apply(s, step).value);
      case UpdateDimension(_, _) => MoreRows(s, Apply(s, step).value);
      case DeleteDimension(key) => DimensionDeleteKeeps(s, key);
      case CreateExample(_, _) => UseStepKeeps(s, step);
      case UpdateExample(_, _) => UseStepKeeps(s, step);
      case CreateTemplate(_, _) => UseStepKeeps(s, step);
      case UpdateTemplate(_, _) => UseStepKeeps(s, step);
      case _ => MoreRows(s, Apply(s, step).value);
    }
  }

  const EMPTY := Tables(map[], map[], map[], map[], map[])

  /** The tables after some accepted and refused steps. */
  function After(steps: seq<Step>): Tables {
    if steps == [] then EMPTY
    else
      var before := After(steps[..|steps| - 1]);
      match Apply(before, steps[|steps| - 1])
      case Ok(t) => t
      case Err(_) => before
  }

  /** Over any sequence of administration steps, references stay intact. */
  lemma {:induction false} ReferencesAlwaysIntact(steps: seq<Step>)
    ensures ReferencesIntact(After(steps))
  {
    hide Apply;
    if steps != [] {
      ReferencesAlwaysIntact(steps[..|steps| - 1]);
      if Apply(After(steps[..|steps| - 1]), steps[|steps| - 1]).Ok? {
        StepKeepsReferences(After(steps[..|steps| - 1]), steps[|steps| - 1]);
      }
    }
  }

  // ---- The catalogue the planner sees ----

  /** What the `details` of rows stand for. */
  datatype Reading = Reading(
    expression: string -> Sql.Expression<ColumnTemplate>, dimension: (string, string) -> Dimension)

  /** The active rows, dimensions serving as filters too. */
  function BuildCatalog(s: Tables, reading: Reading): (c: Catalog)
    ensures c.Built()
    ensures forall k :: k in c.metrics <==> k in s.metrics && s.metrics[k].isActive
    ensures forall k :: k in c.dimensions <==> k in s.dimensions && s.dimensions[k].isActive
    ensures forall k :: k in c.metrics ==>
      && c.metrics[k].grain == s.metrics[k].grain
      && c.metrics[k].allowedDimensions == s.metrics[k].allowedDimensions
      && c.metrics[k].allowedFilters == s.metrics[k].allowedFilters
      && c.metrics[k].expression == reading.expression(s.metrics[k].details)
  {
    var dimensions := map k | k in s.dimensions && s.dimensions[k].isActive ::
      reading.dimension(k, s.dimensions[k].details).(key := k);
    Catalog(
      map k | k in s.metrics && s.metrics[k].isActive ::
        var m := s.metrics[k];
        Metric(k, m.grain, reading.expression(m.details), m.allowedDimensions, m.allowedFilters),
      dimensions, dimensions)
  }

  /** On a catalogue that only administration steps have touched, no request fails for its
      metric's grain, and a permitted dimension is unknown only if it has been switched off. */
  lemma AdministeredCatalogPlans(
    steps: seq<Step>, reading: Reading, i: Interpretation, floats: Literals.Floats, maxResultRows: nat)
    ensures var r := PlanFor(i, BuildCatalog(After(steps), reading), floats, maxResultRows);
      && r != Err(UnsupportedGrain)
      && forall m, k :: m in After(steps).metrics && k in After(steps).metrics[m].allowedDimensions ==>
          k in After(steps).dimensions
          && (k !in BuildCatalog(After(steps), reading).dimensions ==> !After(steps).dimensions[k].isActive)
  {
    hide PlanDimensions, PlanFilters, PeriodClauses, NormalizeLimit, OrderOf, DimensionJoins, FilterJoins, SafeKey;
    hide After, Planner.ResolveDimension, FilterClause;
    ReferencesAlwaysIntact(steps);
    var catalog := BuildCatalog(After(steps), reading);
    NeverUnsupported(i, catalog, floats, maxResultRows);
  }

  lemma NeverUnsupported(i: Interpretation, catalog: Catalog, floats: Literals.Floats, maxResultRows: nat)
    requires forall m :: m in catalog.metrics ==> catalog.metrics[m].grain in {ORDER.key, TENDER.key}
    ensures PlanFor(i, catalog, floats, maxResultRows) != Err(UnsupportedGrain)
  {
    hide DimensionJoins, FilterJoins, PlanDimensions, PlanFilters, AsciiText.Lower, Sql.FirstOccurrences;
    match Get(catalog.metrics, i.metric.GetOr("")) {
      case None =>
      case Some(m) =>
        var grain := GrainOf(m.grain).value;
        DimensionErrors(catalog, m, grain, i.dimensions);
        FilterErrors(catalog, floats, m, grain, i.filters);
    }
  }

  lemma {:induction false} DimensionErrors(catalog: Catalog, m: Metric, grain: Grain, keys: seq<string>)
    ensures PlanDimensions(catalog, m, grain, keys) != Err(UnsupportedGrain)
  {
    if keys != [] { DimensionErrors(catalog, m, grain, keys[..|keys| - 1]); }
  }

  lemma {:induction false} FilterErrors(
    catalog: Catalog, floats: Literals.Floats, m: Metric, grain: Grain, filters: seq<(string, FilterValue)>)
    ensures PlanFilters(catalog, floats, m, grain, filters) != Err(UnsupportedGrain)
  {
    hide Literals.ReadValue;
    if filters != [] {
      FilterErrors(catalog, floats, m, grain, filters[..|filters| - 1]);
      var f := filters[|filters| - 1];
      if f.0 in catalog.filters { ValueErrors(floats, catalog.filters[f.0], ValuesOf(f.1.values)); }
    }
  }

  lemma {:induction false} ValueErrors(floats: Literals.Floats, d: Dimension, values: seq<string>)
    ensures ReadValues(floats, d, values) != Err(UnsupportedGrain)
  {
    hide Literals.ReadValue;
    if values != [] { ValueErrors(floats, d, values[..|values| - 1]); }
  }

  // ---- Which references a deletion can leave behind ----

  ghost predicate AllTermsResolve(s: Tables) { forall t :: t in s.terms ==> Resolves(s, s.terms[t]) }

  /** The check before a deletion compares stored keys and leaves out filter terms. So deleting
      a dimension leaves a term behind exactly when a filter term, or a dimension term stored
      with spaces around its key, names it. */
  lemma DimensionDeletionDangles(s: Tables, key: string)
    requires AllTermsResolve(s) && key in s.dimensions && !DimensionReferenced(s, key)
    ensures AllTermsResolve(Apply(s, DeleteDimension(key)).value) <==>
      !exists t :: t in s.terms && Strip(s.terms[t].key) == key
        && (s.terms[t].kind.FilterKind? || (s.terms[t].kind.DimensionKind? && !Tidy(s.terms[t].key)))
  {
    hide SafeKey, Strip, AllIn;
    var after := Apply(s, DeleteDimension(key)).value;
    assert after == s.(dimensions := s.dimensions - {key}) by { assert DimensionReferenced(s, key) == false; }
    assert forall t :: t in s.terms && s.terms[t].kind.DimensionKind? ==> s.terms[t].key != key;
    forall t | t in s.terms
      ensures Resolves(after, s.terms[t]) <==> s.terms[t].kind.MetricKind? || Strip(s.terms[t].key) != key
    {
      assert Resolves(s, s.terms[t]);
    }
  }

  /** The same for a metric: only a term stored with spaces around its key is left behind. */
  lemma MetricDeletionDangles(s: Tables, key: string)
    requires AllTermsResolve(s) && key in s.metrics && !MetricReferenced(s, key)
    ensures AllTermsResolve(Apply(s, DeleteMetric(key)).value) <==>
      !exists t :: t in s.terms && Strip(s.terms[t].key) == key && s.terms[t].kind.MetricKind? && !Tidy(s.terms[t].key)
  {
    hide SafeKey, Strip, AllIn;
    var after := Apply(s, DeleteMetric(key)).value;
    assert forall t :: t in s.terms && s.terms[t].kind.MetricKind? ==> s.terms[t].key != key;
    forall t | t in s.terms
      ensures Resolves(after, s.terms[t]) <==> !s.terms[t].kind.MetricKind? || Strip(s.terms[t].key) != key
    {
      assert Resolves(s, s.terms[t]);
    }
  }

  lemma StripCity()
    ensures Strip("city") == "city" && Lower(Strip("city")) == "city" && SafeKey("city")
  {
    var city := "city";
    assert city[0] == 'c' && city[1] == 'i' && city[2] == 't' && city[3] == 'y';
    forall i | 0 <= i < |city| ensures IsLower(city[i]) { assert i == 0 || i == 1 || i == 2 || i == 3; }
    StripTight(city);
  }

  /** Three accepted steps that end with a filter term naming no dimension. */
  lemma FilterTermLeftBehind() returns (steps: seq<Step>)
    ensures |steps| == 3 && steps[2] == DeleteDimension("city")
    ensures "city" in After(steps).terms && !Resolves(After(steps), After(steps).terms["city"])
  {
    hide Strip, SafeKey;
    StripCity();
    var row, term := DimensionRow(true, ""), TermRow(FilterKind, "city", true);
    steps := [CreateDimension("city", Given(row, true)), CreateTerm("city", term), DeleteDimension("city")];
    var one := EMPTY.(dimensions := map["city" := row]);
    var two := one.(terms := map["city" := term]);
    assert steps[..2][..1] == steps[..1] && steps[..1][..0] == [];
    assert After(steps[..1]) == one;
    assert After(steps[..2]) == two;
    assert !DimensionReferenced(two, "city");
    assert After(steps) == two.(dimensions := map[]);
  }

  // ---- The checks that loop over keys and rows ----

  datatype Issue =
    | InvalidKey
    | InvalidText
    | OtherGrain(grain: string)
    | MissingMetric(key: string)
    | UnknownKey(key: string)

  ghost predicate Reports(issues: seq<Issue>, keys: seq<string>, known: set<string>) {
    forall k :: UnknownKey(k) in issues <==> k in keys && k !in known
  }

  /** One issue for each key that names no active dimension. */
  method UnknownKeys(keys: seq<string>, known: set<string>) returns (issues: seq<Issue>)
    ensures Reports(issues, keys, known) && forall x :: x in issues ==> x.UnknownKey?
  {
    issues := [];
    for n := 0 to |keys|
      invariant Reports(issues, keys[..n], known) && forall x :: x in issues ==> x.UnknownKey?
    {
      assert keys[..n + 1] == keys[..n] + [keys[n]];
      if keys[n] !in known { issues := issues + [UnknownKey(keys[n])]; }
    }
    assert keys[..|keys|] == keys;
  }

  /** No issue exactly for a valid metric; and every unknown dimension or filter key is told. */
  method ValidateMetricDefinition(s: Tables, key: string, given: Given<MetricRow>) returns (issues: seq<Issue>)
    ensures issues == [] <==> ValidMetric(s, key, given)
    ensures Reports(issues, given.row.allowedDimensions + given.row.allowedFilters, ActiveDimensions(s))
  {
    hide SafeKey;
    issues := [];
    if !SafeKey(key) { issues := issues + [InvalidKey]; }
    if !given.wellFormed { issues := issues + [InvalidText]; }
    if given.row.grain !in {ORDER.key, TENDER.key} { issues := issues + [OtherGrain(given.row.grain)]; }
    var dimensions := UnknownKeys(given.row.allowedDimensions, ActiveDimensions(s));
    var filters := UnknownKeys(given.row.allowedFilters, ActiveDimensions(s));
    NoReports(dimensions, given.row.allowedDimensions, ActiveDimensions(s));
    NoReports(filters, given.row.allowedFilters, ActiveDimensions(s));
    issues := issues + dimensions + filters;
  }

  lemma NoReports(issues: seq<Issue>, keys: seq<string>, known: set<string>)
    requires Reports(issues, keys, known) && forall x :: x in issues ==> x.UnknownKey?
    ensures issues == [] <==> AllIn(keys, known)
  {
    if issues != [] { assert issues[0] in issues && issues[0] == UnknownKey(issues[0].key); }
    forall k | k in keys && k !in known ensures issues != [] { assert UnknownKey(k) in issues; }
  }

  /** The same for an example or an approved template. */
  method ValidateUseDefinition(s: Tables, given: Given<UseRow>) returns (issues: seq<Issue>)
    ensures issues == [] <==> ValidUse(s, given)
    ensures Reports(issues, given.row.dimensions + given.row.filters, ActiveDimensions(s))
  {
    issues := [];
    if !given.wellFormed { issues := issues + [InvalidText]; }
    if given.row.metric !in ActiveMetrics(s) { issues := issues + [MissingMetric(given.row.metric)]; }
    var dimensions := UnknownKeys(given.row.dimensions, ActiveDimensions(s));
    var filters := UnknownKeys(given.row.filters, ActiveDimensions(s));
    NoReports(dimensions, given.row.dimensions, ActiveDimensions(s));
    NoReports(filters, given.row.filters, ActiveDimensions(s));
    issues := issues + dimensions + filters;
  }

  /** Row after row, whether a metric permits the dimension, or a term, an example or a template
      names it. */
  method DimensionInUse(s: Tables, key: string) returns (used: bool)
    ensures used <==> DimensionReferenced(s, key)
  {
    var left := s.metrics.Keys;
    while left != {}
      invariant left <= s.metrics.Keys
      invariant forall m :: m in s.metrics && m !in left ==>
        key !in s.metrics[m].allowedDimensions && key !in s.metrics[m].allowedFilters
    {
      var m :| m in left;
      if key in s.metrics[m].allowedDimensions || key in s.metrics[m].allowedFilters { return true; }
      left := left - {m};
    }
    if exists t :: t in s.terms && s.terms[t].kind.DimensionKind? && s.terms[t].key == key { return true; }
    used := UsedBy(s.examples, key);
    if !used { used := UsedBy(s.templates, key); }
  }

  method UsedBy<K(==)>(uses: map<K, UseRow>, key: string) returns (used: bool)
    ensures used <==> exists k :: k in uses && InUse(uses[k], key)
  {
    var left := uses.Keys;
    while left != {}
      invariant left <= uses.Keys && forall k :: k in uses && k !in left ==> !InUse(uses[k], key)
    {
      var k :| k in left;
      if InUse(uses[k], key) { return true; }
      left := left - {k};
    }
    return false;
  }

  // ---- The stored catalogue ----

  /** A refused step changes nothing. */
  ghost predicate Did(before: Tables, step: Step, after: Tables, error: Option<AdminError>) {
    match error
    case None => Apply(before, step) == Ok(after)
    case Some(e) => Apply(before, step) == Err(e) && after == before
  }

  lemma DidKeepsReferences(before: Tables, step: Step, after: Tables, error: Option<AdminError>)
    requires Did(before, step, after, error) && ReferencesIntact(before)
    ensures ReferencesIntact(after)
  {
    hide Apply, ReferencesIntact;
    if error.None? { StepKeepsReferences(before, step); }
  }

  class Store {
    var metrics: map<string, MetricRow>
    var dimensions: map<string, DimensionRow>
    var terms: map<string, TermRow>
    var examples: map<nat, UseRow>
    var templates: map<string, UseRow>

    constructor ()
      ensures View() == EMPTY
    {
      metrics, dimensions, terms, examples, templates := map[], map[], map[], map[], map[];
    }

    function View(): Tables
      reads this
    {
      Tables(metrics, dimensions, terms, examples, templates)
    }

    /** A metric is stored exactly if it has no issue and its key is new; then all it refers to
        is there, and what was intact stays so. */
    method CreateMetricEntry(key: string, given: Given<MetricRow>) returns (error: Option<AdminError>)
      modifies this`metrics
      ensures Did(old(View()), CreateMetric(key, given), View(), error)
      ensures error == None ==>
        old(metrics).Keys + {key} == metrics.Keys && AllIn(given.row.allowedDimensions, dimensions.Keys)
      ensures ReferencesIntact(old(View())) ==> ReferencesIntact(View())
    {
      hide ReferencesIntact, SafeKey;
      ghost var before := View();
      var issues := ValidateMetricDefinition(View(), key, given);
      if issues != [] { return Some(Invalid); }
      if key in metrics { return Some(AlreadyExists); }
      metrics := metrics[key := given.row];
      if ReferencesIntact(before) { DidKeepsReferences(before, CreateMetric(key, given), View(), None); }
      return None;
    }

    /** A template is stored exactly if its key is new and all it names is active. */
    method CreateTemplateEntry(key: string, given: Given<UseRow>) returns (error: Option<AdminError>)
      modifies this`templates
      ensures Did(old(View()), CreateTemplate(key, given), View(), error)
      ensures error == None ==> old(templates).Keys + {key} == templates.Keys && UseSound(View(), given.row)
      ensures ReferencesIntact(old(View())) ==> ReferencesIntact(View())
    {
      hide ReferencesIntact, SafeKey;
      ghost var before := View();
      var issues := ValidateUseDefinition(View(), given);
      if !SafeKey(key) || issues != [] { return Some(Invalid); }
      if key in templates { return Some(AlreadyExists); }
      templates := templates[key := given.row];
      if ReferencesIntact(before) { DidKeepsReferences(before, CreateTemplate(key, given), View(), None); }
      return None;
    }

    /** A dimension goes exactly if no metric permits it, and no term, example or template names
        it; the others stay. */
    method DeleteDimensionEntry(key: string) returns (error: Option<AdminError>)
      modifies this`dimensions
      ensures Did(old(View()), DeleteDimension(key), View(), error)
      ensures error == None <==> key in old(dimensions) && !DimensionReferenced(old(View()), key)
      ensures error == None ==> dimensions.Keys == old(dimensions).Keys - {key}
      ensures ReferencesIntact(old(View())) ==> ReferencesIntact(View())
    {
      hide ReferencesIntact, DimensionReferenced;
      ghost var before := View();
      if key !in dimensions { return Some(NotFound); }
      var used := DimensionInUse(View(), key);
      if used { return Some(Referenced); }
      dimensions := dimensions - {key};
      if ReferencesIntact(before) { DidKeepsReferences(before, DeleteDimension(key), View(), None); }
      return None;
    }
  }
}
