/**
  The memoized doctype-to-schema resolver of the HTML editor extension: a cache
  `(resolvedDocType, schema)` that the `Schema` getter fills on first use and
  `OnDocTypeChanged` invalidates.
 */
module SchemaResolution {
  import opened Wrappers
  import opened CompletionData

  /** A parsed doctype declaration; its public FPI may itself be null. */
  datatype DocType = DocType(publicFpi: Option<string>)

  /**
    The schema service as the resolver sees it: the default schema (which may be
    null when the service is misconfigured) and lookup by public FPI.
   */
  datatype SchemaRegistry = SchemaRegistry(
    defaultDocType: Option<HtmlSchema>,
    getSchema: string -> Option<HtmlSchema>)

  /** One consultation of the schema service: reading the default, or looking up an FPI. */
  datatype RegistryQuery = DefaultDocTypeQuery | GetSchemaQuery(fpi: string)

  /** The two fields of the extension that make up the cache. */
  datatype SchemaCache = SchemaCache(resolvedDocType: bool, schema: Option<HtmlSchema>)

  /** What a freshly constructed extension holds: nothing resolved, a null schema. */
  const InitialCache := SchemaCache(false, None)

  /** The resolver-relevant state of one editor: the current doctype (tracked by the parser) and the cache. */
  datatype Editor = Editor(docType: Option<DocType>, cache: SchemaCache)

  /** The outcome of reading `Schema`: the schema returned, the editor afterwards, the registry queries made. */
  datatype SchemaRead = SchemaRead(schema: Option<HtmlSchema>, editor: Editor, queries: seq<RegistryQuery>)

  /** The FPI to look up: none when there is no doctype or its public FPI is null or empty. */
  function LookupFpi(docType: Option<DocType>): Option<string> {
    if docType.None? || docType.value.publicFpi.None? || docType.value.publicFpi.value == "" then None
    else docType.value.publicFpi
  }

  /**
    The schema that should be active for a doctype: the one registered under its
    public FPI when there is such a schema, and the registry default in every other case.
   */
  ghost predicate IsActiveSchema(s: Option<HtmlSchema>, docType: Option<DocType>, reg: SchemaRegistry) {
    var fpi := LookupFpi(docType);
    if fpi.Some? && reg.getSchema(fpi.value).Some? then s == reg.getSchema(fpi.value)
    else s == reg.defaultDocType
  }

  /** A doctype has one active schema under a given registry. */
  lemma ActiveSchemaIsUnique(s1: Option<HtmlSchema>, s2: Option<HtmlSchema>, docType: Option<DocType>, reg: SchemaRegistry)
    requires IsActiveSchema(s1, docType, reg) && IsActiveSchema(s2, docType, reg)
    ensures s1 == s2
  {
  }

  /**
    The cache holds no stale schema: when it is marked resolved, it holds the
    schema active for the current doctype under the registry `reg`.
   */
  ghost predicate Coherent(ed: Editor, reg: SchemaRegistry) {
    ed.cache.resolvedDocType ==> IsActiveSchema(ed.cache.schema, ed.docType, reg)
  }

  /** The `Schema` getter. */
  function ReadSchema(ed: Editor, reg: SchemaRegistry): (r: SchemaRead)
    ensures r.editor == Editor(ed.docType, SchemaCache(true, r.schema))
    ensures ed.cache.resolvedDocType ==> r.schema == ed.cache.schema && r.queries == []
    ensures !ed.cache.resolvedDocType ==> IsActiveSchema(r.schema, ed.docType, reg)
    ensures !ed.cache.resolvedDocType ==>
              |r.queries| > 0 && (r.queries[0] == DefaultDocTypeQuery <==> LookupFpi(ed.docType).None?)
    ensures !ed.cache.resolvedDocType ==>
              |r.queries| == if LookupFpi(ed.docType).Some? && reg.getSchema(LookupFpi(ed.docType).value).None? then 2 else 1
    ensures !ed.cache.resolvedDocType && LookupFpi(ed.docType).Some? ==>
              r.queries[0] == GetSchemaQuery(LookupFpi(ed.docType).value)
    ensures |r.queries| == 2 ==> r.queries[1] == DefaultDocTypeQuery
  {
    if ed.cache.resolvedDocType then
      SchemaRead(ed.cache.schema, ed, [])
    else
      match LookupFpi(ed.docType)
      case None =>
        SchemaRead(reg.defaultDocType, Editor(ed.docType, SchemaCache(true, reg.defaultDocType)), [DefaultDocTypeQuery])
      case Some(fpi) =>
        var found := reg.getSchema(fpi);
        if found.Some? then
          SchemaRead(found, Editor(ed.docType, SchemaCache(true, found)), [GetSchemaQuery(fpi)])
        else
          SchemaRead(reg.defaultDocType, Editor(ed.docType, SchemaCache(true, reg.defaultDocType)),
                     [GetSchemaQuery(fpi), DefaultDocTypeQuery])
  }

  /** `OnDocTypeChanged`: drop the resolved mark and nothing else. */
  function OnDocTypeChanged(c: SchemaCache): (r: SchemaCache)
    ensures !r.resolvedDocType
    ensures r.schema == c.schema
  {
    c.(resolvedDocType := false)
  }

  /** The parser has seen a different doctype: record it and notify the extension. */
  function ChangeDocType(ed: Editor, docType: Option<DocType>): (r: Editor)
    ensures r.docType == docType
    ensures !r.cache.resolvedDocType && r.cache.schema == ed.cache.schema
  {
    Editor(docType, OnDocTypeChanged(ed.cache))
  }

  /** Whatever was resolved is either the schema registered for the FPI or the default. */
  lemma ResolvedIsLookupOrDefault(ed: Editor, reg: SchemaRegistry)
    requires !ed.cache.resolvedDocType
    ensures var r := ReadSchema(ed, reg);
            || r.schema == reg.defaultDocType
            || (LookupFpi(ed.docType).Some? && r.schema.Some? && r.schema == reg.getSchema(LookupFpi(ed.docType).value))
    ensures LookupFpi(ed.docType).None? ==> ReadSchema(ed, reg).schema == reg.defaultDocType
  {
  }

  /** A second read returns the very schema of the first and consults the registry no more. */
  lemma ReadIsMemoized(ed: Editor, reg: SchemaRegistry)
    ensures var first := ReadSchema(ed, reg);
            var second := ReadSchema(first.editor, reg);
            second.schema == first.schema && second.editor == first.editor && second.queries == []
  {
  }

  /** After `OnDocTypeChanged` the next read resolves afresh and marks the cache resolved again. */
  lemma InvalidateThenReadResolves(ed: Editor, reg: SchemaRegistry, docType: Option<DocType>)
    ensures var r := ReadSchema(ChangeDocType(ed, docType), reg);
            |r.queries| > 0 && r.editor.cache.resolvedDocType && IsActiveSchema(r.schema, docType, reg)
  {
  }

  /** What happens to one editor over time: the parser reports a new doctype, or completion reads `Schema`. */
  datatype Event = DocTypeChanged(newDocType: Option<DocType>) | SchemaRequested

  /** One read of `Schema`: the doctype current at that moment and the schema it returned. */
  datatype Observation = Observation(docType: Option<DocType>, schema: Option<HtmlSchema>)

  /** The outcome of a run of events: the final editor, every read in order, every registry query in order. */
  datatype Trace = Trace(editor: Editor, observations: seq<Observation>, queries: seq<RegistryQuery>)

  /**
    Folds a sequence of events over an editor, recording every read of `Schema`
    (with the doctype it saw) and every registry query, in order.
   */
  function Run(ed: Editor, reg: SchemaRegistry, events: seq<Event>): (t: Trace)
    decreases |events|
  {
    if events == [] then Trace(ed, [], [])
    else
      match events[0]
      case DocTypeChanged(d) => Run(ChangeDocType(ed, d), reg, events[1..])
      case SchemaRequested =>
        var r := ReadSchema(ed, reg);
        var rest := Run(r.editor, reg, events[1..]);
        Trace(rest.editor, [Observation(ed.docType, r.schema)] + rest.observations, r.queries + rest.queries)
  }

  /** Every observed read returned the schema active for the doctype it saw. */
  ghost predicate AllActive(observations: seq<Observation>, reg: SchemaRegistry) {
    forall i :: 0 <= i < |observations| ==> IsActiveSchema(observations[i].schema, observations[i].docType, reg)
  }

  /** A new extension, whatever its doctype, starts coherent. */
  lemma InitialEditorIsCoherent(docType: Option<DocType>, reg: SchemaRegistry)
    ensures Coherent(Editor(docType, InitialCache), reg)
  {
  }

  /**
    For a fixed registry, memoization never serves a stale schema: from a
    coherent editor, every read in any run of events returns the schema active
    for the doctype current at that read, and the editor stays coherent. The
    registry is one value for the whole run, because the cache is cleared only
    on a doctype change and would keep an old schema if the registry changed.
   */
  lemma {:induction false} RunServesActiveSchema(ed: Editor, reg: SchemaRegistry, events: seq<Event>)
    requires Coherent(ed, reg)
    ensures Coherent(Run(ed, reg, events).editor, reg)
    ensures AllActive(Run(ed, reg, events).observations, reg)
    decreases |events|
  {
    if events != [] {
      match events[0]
      case DocTypeChanged(d) =>
        RunServesActiveSchema(ChangeDocType(ed, d), reg, events[1..]);
        assert Run(ed, reg, events) == Run(ChangeDocType(ed, d), reg, events[1..]);
      case SchemaRequested =>
        var r := ReadSchema(ed, reg);
        assert IsActiveSchema(r.schema, ed.docType, reg);
        RunServesActiveSchema(r.editor, reg, events[1..]);
        var t := Run(ed, reg, events);
        var rest := Run(r.editor, reg, events[1..]);
        assert t.observations == [Observation(ed.docType, r.schema)] + rest.observations;
    }
  }

  /**
    Between doctype changes the schema is resolved at most once: in a run of
    reads only, every read returns what the first returned, and the only
    registry queries are those of the first read (none when the cache is
    already resolved; otherwise one, or two on a lookup miss).
   */
  lemma {:induction false} ReadsOnlyRunIsMemoized(ed: Editor, reg: SchemaRegistry, events: seq<Event>)
    requires |events| > 0
    requires forall i :: 0 <= i < |events| ==> events[i] == SchemaRequested
    ensures var t := Run(ed, reg, events);
            var first := ReadSchema(ed, reg);
            && |t.observations| == |events|
            && (forall i :: 0 <= i < |t.observations| ==> t.observations[i] == Observation(ed.docType, first.schema))
            && t.queries == first.queries
            && |t.queries| <= 2
            && (ed.cache.resolvedDocType <==> t.queries == [])
            && t.editor == first.editor
    decreases |events|
  {
    var first := ReadSchema(ed, reg);
    assert events[0] == SchemaRequested;
    if |events| > 1 {
      ReadsOnlyRunIsMemoized(first.editor, reg, events[1..]);
      ReadIsMemoized(ed, reg);
    }
  }
}
