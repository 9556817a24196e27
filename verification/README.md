# HTML completion layer of the HTML editor extension

This project models the completion layer of `BaseHtmlEditorExtension`, the base
class of the HTML editor extensions. The layer has two parts.

- **The doctype-to-schema resolver.** The `Schema` getter resolves the
  document's doctype to an HTML schema and caches the result in the pair
  `(resolvedDocType, schema)`. A missing doctype, or one whose public FPI is
  null or empty, selects the schema service's default. Otherwise the FPI is
  looked up, and a miss falls back to the default. `OnDocTypeChanged` clears the
  resolved mark, so the next read resolves again.
- **The candidate-list builders.** These serve element, attribute and
  attribute-value completion. Each one asks the active schema's completion
  provider for data, gates or filters it, and returns an ordered list.

Modules:

- `Wrappers`: `Option`, which stands for a reference that may be null.
- `XmlNames`: what the completion code observes of an XML name (its full name,
  whether it is valid, whether it has a prefix). Also the attributed-object
  variants and ASCII lower-casing.
- `CompletionData`: completion candidates, completion providers and schemas.
  A provider's queries are function-valued fields, so each provider is
  arbitrary.
- `SchemaResolution`:
  - the schema registry as a parameter (the default schema and lookup by FPI);
  - the cache and the `Schema` getter (`ReadSchema`), which records every
    registry query it makes;
  - `OnDocTypeChanged`;
  - runs of doctype-change and schema-read events. For a fixed registry, the
    lemmas show two things, assuming the service's calls do not throw. The
    memoization never serves a schema other than the one active for the
    current doctype. Between doctype changes it also
    resolves at most once, which is one or two registry queries.
- `AttributeFilter`: the rule that drops attributes the tag already has, with
  its order, multiplicity and null-map properties.
- `HtmlCompletion`: `GetElementCompletions`, `GetAttributeCompletions`,
  `GetAttributeValueCompletions` and the three `AddHtml…CompletionData`
  builders. Each entry point returns its list together with the editor state
  left after the `Schema` read.

Behaviour of the class that the model keeps as written:

- **Absent schema.** The class has no empty-list fallback for an absent schema:
  - element completion still returns the miscellaneous begin tags, and
    `!DOCTYPE` when there is no doctype;
  - the attribute and attribute-value paths dereference the schema without a
    null check (main/src/addins/AspNet/Html/BaseHtmlEditorExtension.cs:154,
    :162).

  The model therefore requires a non-null schema on those two paths.
- **Cache on gated-off requests.** An attribute or value request that fails
  the element/prefix gate never evaluates `Schema`. The schema cache is
  therefore left exactly as it was.

## Model

| member | source | states |
|---|---|---|
| SchemaResolution.ReadSchema | main/src/addins/AspNet/Html/BaseHtmlEditorExtension.cs:53-75 | After a read the cache is marked resolved and holds the returned schema. A cache already resolved returns its stored schema with no registry query. An unresolved read returns the active schema for the doctype and queries the registry at least once. Its first query is the default exactly when the FPI is missing, null or empty. It makes exactly one query, or two on a lookup miss (the lookup of the doctype's public FPI, then the default). |
| SchemaResolution.ResolvedIsLookupOrDefault | main/src/addins/AspNet/Html/BaseHtmlEditorExtension.cs:60-73 | A fresh resolution yields either the registry default or the non-null schema registered under the doctype's public FPI. Without a usable FPI it is always the default. |
| SchemaResolution.ReadIsMemoized | main/src/addins/AspNet/Html/BaseHtmlEditorExtension.cs:55-56 | A second read returns the same schema as the first. It leaves the editor as the first read left it and makes no registry query. |
| SchemaResolution.OnDocTypeChanged | main/src/addins/AspNet/Html/BaseHtmlEditorExtension.cs:77-80 | The resolved mark is cleared and the cached schema is left untouched. |
| SchemaResolution.ChangeDocType | main/src/addins/AspNet/Html/BaseHtmlEditorExtension.cs:77-80 | A doctype change records the new doctype and leaves the cache unresolved, with the schema value unchanged. |
| SchemaResolution.InvalidateThenReadResolves | main/src/addins/AspNet/Html/BaseHtmlEditorExtension.cs:55-80 | After a doctype change, the next read queries the registry, marks the cache resolved again and returns the schema active for the new doctype. |
| SchemaResolution.InitialEditorIsCoherent | main/src/addins/AspNet/Html/BaseHtmlEditorExtension.cs:46-47 | A new extension (unresolved, null schema) satisfies the cache invariant: a resolved cache holds the active schema. |
| SchemaResolution.RunServesActiveSchema | main/src/addins/AspNet/Html/BaseHtmlEditorExtension.cs:53-80 | For a fixed registry and a coherent editor, every read in any sequence of doctype changes and schema reads returns the schema active for the doctype current at that read. The editor stays coherent. |
| SchemaResolution.ReadsOnlyRunIsMemoized | main/src/addins/AspNet/Html/BaseHtmlEditorExtension.cs:53-75 | In a run of reads with no doctype change, every read returns the first read's schema. The run's registry queries are exactly those of the first read: none when the cache is already resolved; otherwise one, or two on a lookup miss. |
| HtmlCompletion.AddHtmlTagCompletionData | main/src/addins/AspNet/Html/BaseHtmlEditorExtension.cs:138-148 | With no schema the list is unchanged. With a valid parent name, exactly the child-element data for the lower-cased parent full name is appended. Otherwise exactly the top-level element data is appended, in provider order. |
| HtmlCompletion.TagDataIgnoresParentCase | main/src/addins/AspNet/Html/BaseHtmlEditorExtension.cs:143-144 | Two parent names that differ only in letter case yield the same element candidates. |
| XmlNames.ToLower | main/src/addins/AspNet/Html/BaseHtmlEditorExtension.cs:144 | Lower-casing keeps the length and maps each character to its ASCII lower-case form, leaving every other character as it is. This is the key normalisation for the child-element and attribute lookups (also line 154). |
| XmlNames.ToLowerIdentifiesCaseVariants | main/src/addins/AspNet/Html/BaseHtmlEditorExtension.cs:144 | Two names get the same lower-cased key exactly when, position by position, they are equal or differ only by an ASCII letter's case. |
| HtmlCompletion.GetElementCompletions | main/src/addins/AspNet/Html/BaseHtmlEditorExtension.cs:99-110 | The list starts with the tag data for the schema just read, followed by the misc begin tags. It has one more entry, `!DOCTYPE` with category `md-literal`, exactly when the document has no doctype. The editor is left as the `Schema` read left it. |
| HtmlCompletion.DocTypeOfferedIffNoDocType | main/src/addins/AspNet/Html/BaseHtmlEditorExtension.cs:106-108 | Suppose neither the schema data nor the misc tags contain the literal. Then the literal `!DOCTYPE` candidate is in the list if and only if the document has no doctype. |
| HtmlCompletion.ElementCompletionsUseActiveSchema | main/src/addins/AspNet/Html/BaseHtmlEditorExtension.cs:99-104 | From a coherent editor, element completion starts with the tag data of the schema active for the document's doctype. The editor stays coherent afterwards. |
| AttributeFilter.WithoutExisting | main/src/addins/AspNet/Html/BaseHtmlEditorExtension.cs:153-156 | The filtered list is no longer than the provider data. None of its entries has a display text that is a key of the existing-attributes map. |
| AttributeFilter.FilterIsSubsequence | main/src/addins/AspNet/Html/BaseHtmlEditorExtension.cs:154-156 | The filtered list is an order-preserving subsequence of the provider data. |
| AttributeFilter.FilterKeepsAbsent | main/src/addins/AspNet/Html/BaseHtmlEditorExtension.cs:154-156 | Every candidate not already on the tag is kept as many times as the provider lists it. Every candidate already on the tag is dropped. |
| AttributeFilter.NullMapKeepsAll | main/src/addins/AspNet/Html/BaseHtmlEditorExtension.cs:155 | With a null existing-attributes map, the whole provider list is kept. |
| HtmlCompletion.AddHtmlAttributeCompletionData | main/src/addins/AspNet/Html/BaseHtmlEditorExtension.cs:150-157 | The loop over the provider's attributes for the lower-cased tag name appends exactly the filtered list to the given list. Nothing it appends is already on the tag. |
| HtmlCompletion.GetAttributeCompletions | main/src/addins/AspNet/Html/BaseHtmlEditorExtension.cs:119-126 | For something other than an unprefixed element, the result is an empty list and the cache is untouched. Otherwise, after the `Schema` read, the list is an order-preserving subsequence of the element's attribute data that keeps every absent attribute with its multiplicity and no present one. With a null map the whole data is kept. From a coherent editor, the gated list is the filtered attribute data of the schema active for the doctype, and the editor stays coherent. |
| HtmlCompletion.AddHtmlAttributeValueCompletionData | main/src/addins/AspNet/Html/BaseHtmlEditorExtension.cs:159-164 | The given list is kept as a prefix. It is followed by exactly the provider's values for the tag and attribute full names as written, with no lower-casing. |
| HtmlCompletion.GetAttributeValueCompletions | main/src/addins/AspNet/Html/BaseHtmlEditorExtension.cs:128-134 | For something other than an unprefixed element, the result is an empty list and the cache is untouched. Otherwise the list is exactly the provider's values for the element and attribute full names, after the `Schema` read. |
| HtmlCompletion.ValueCompletionsUseActiveSchema | main/src/addins/AspNet/Html/BaseHtmlEditorExtension.cs:128-134 | From a coherent editor, a gated value request with a non-null schema returns exactly the values that the schema active for the doctype gives for the element and attribute full names. The editor stays coherent. |
| HtmlCompletion.ValueLookupIsCaseSensitive | main/src/addins/AspNet/Html/BaseHtmlEditorExtension.cs:154-163 | For one schema, `INPUT` and `input` get the same attribute list, because the tag name is lower-cased. They get different value lists, because value lookup uses the names as written. |

## Left out

- The markup tokenizer and the parse-context stack. These are the root state,
  tag state and closing-tag state built at
  main/src/addins/AspNet/Html/BaseHtmlEditorExtension.cs:86, together with
  `GetParentElementName` and the tracking of `DocType`. They are defined in
  files that are not part of this model. The parent name, the current doctype,
  the attributed object and the existing-attributes map are therefore inputs.
  A doctype change is an event that also performs `OnDocTypeChanged`.
- `XName`: its definition is not part of this model. A name is represented by
  the three values the completion code reads from it (`FullName`, `IsValid`,
  `HasPrefix`).
- `AddMiscBeginTags` (base class, not part of this model): its output is an
  opaque sequence parameter.
- The schema service (`HtmlSchemaService`): `GetSchema`, `DefaultDocType`,
  `Initialise` and the schema files are not modelled. The registry is a
  parameter holding the default schema (possibly null) and a lookup function by
  FPI. The second argument of `GetSchema (fpi, true)` is internal to the
  service, so the lookup function stands for the call with that flag.
- Completion providers: each query is an arbitrary function value, so what a
  schema offers is left open.
- `async`/`await` and cancellation tokens: each awaited provider call is an
  already available sequence. Cancellation is not visible in this class.
- `LoggingService.LogDebug` calls: these are diagnostics only. The model
  records registry queries instead.
- `GettextCatalog` localisation: the description of the `!DOCTYPE` candidate is
  the untranslated text "Document type".
- `GetDocTypeCompletions`: it only projects a list owned by the schema service.
- `CompletionLanguage`, `CreateRootState` and `Initialize`: these are
  configuration and setup with nothing to state.
- XmlNames.ToLower: the source's culture-sensitive lower-casing is modelled as
  ASCII lower-casing.
- The schema service's `DefaultDocType` and `GetSchema` are assumed not to
  throw. The getter marks the cache resolved
  (main/src/addins/AspNet/Html/BaseHtmlEditorExtension.cs:58) before it calls
  the service (:62, :66, :71). So if a call throws, the mark stays set next to
  the previously cached schema. Every later read would then return that stale
  schema until the next doctype change. The coherence lemmas hold only under
  this assumption.
- The schema service's contents are held fixed for an editor's lifetime. The
  cache is cleared only on a doctype change
  (main/src/addins/AspNet/Html/BaseHtmlEditorExtension.cs:77-80). A change to
  the service's schemas after a read would therefore leave an old schema
  cached. The run lemmas take one registry value for the whole run and say
  nothing about registry reloads.
- `existingAtts.ContainsKey`: the dictionary's key comparer is chosen outside
  this class. Membership is modelled as exact key equality.
- HtmlCompletion.GetAttributeCompletions: the model covers only calls where
  the schema read on the gated path is non-null. The source throws a null
  dereference there, and no result is modelled for that case.
- HtmlCompletion.GetAttributeValueCompletions: the same restriction to a
  non-null schema on the gated path, for the same reason.
