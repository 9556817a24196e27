/**
  The three completion entry points of the HTML editor extension and the three
  list builders behind them. Every entry point reads `Schema` (which may resolve
  and fill the cache) and returns the candidate list together with the editor
  state afterwards.
 */
module HtmlCompletion {
  import opened Wrappers
  import opened XmlNames
  import opened CompletionData
  import opened SchemaResolution
  import opened AttributeFilter

  /** The literal candidate offered while the document has no doctype. */
  const DocTypeCandidate := Candidate("!DOCTYPE", "md-literal", "Document type")

  /** A completion list and the editor state left behind by computing it. */
  datatype Completions = Completions(list: seq<Candidate>, editor: Editor)

  /** The provider data for elements at a position: children of the lower-cased parent, or top-level elements. */
  function TagData(schema: HtmlSchema, parentName: XName): seq<Candidate> {
    if parentName.isValid then schema.completionProvider.childElementData(ToLower(parentName.fullName))
    else schema.completionProvider.elementData
  }

  /** The provider data for the attributes of an element, keyed by its lower-cased name. */
  function AttributeData(schema: HtmlSchema, tagName: XName): seq<Candidate> {
    schema.completionProvider.attributeData(ToLower(tagName.fullName))
  }

  /** The provider data for the values of one attribute, keyed by the names exactly as written. */
  function AttributeValueData(schema: HtmlSchema, tagName: XName, attributeName: XName): seq<Candidate> {
    schema.completionProvider.attributeValueData(tagName.fullName, attributeName.fullName)
  }

  /** `AddHtmlTagCompletionData`: append the element candidates, or nothing when there is no schema. */
  function AddHtmlTagCompletionData(list: seq<Candidate>, schema: Option<HtmlSchema>, parentName: XName): (r: seq<Candidate>)
    ensures schema.None? ==> r == list
    ensures schema.Some? && parentName.isValid ==>
              r == list + schema.value.completionProvider.childElementData(ToLower(parentName.fullName))
    ensures schema.Some? && !parentName.isValid ==> r == list + schema.value.completionProvider.elementData
  {
    if schema.None? then list
    else list + TagData(schema.value, parentName)
  }

  /** Child-element lookup ignores the case of the parent's name. */
  lemma TagDataIgnoresParentCase(list: seq<Candidate>, schema: Option<HtmlSchema>, a: XName, b: XName)
    requires a.isValid == b.isValid && EqualIgnoringCase(a.fullName, b.fullName)
    ensures AddHtmlTagCompletionData(list, schema, a) == AddHtmlTagCompletionData(list, schema, b)
  {
    ToLowerIdentifiesCaseVariants(a.fullName, b.fullName);
  }

  /**
    `GetElementCompletions`: the tag data for the parent (after reading `Schema`),
    then the miscellaneous begin tags of the base class, then `!DOCTYPE` when the
    document has no doctype.
   */
  function GetElementCompletions(ed: Editor, reg: SchemaRegistry, parentName: XName, miscBeginTags: seq<Candidate>)
    : (r: Completions)
    ensures var read := ReadSchema(ed, reg);
            var prefix := AddHtmlTagCompletionData([], read.schema, parentName) + miscBeginTags;
            && r.editor == read.editor
            && |r.list| == |prefix| + (if ed.docType.None? then 1 else 0)
            && r.list[..|prefix|] == prefix
            && (ed.docType.None? ==> r.list[|r.list| - 1] == DocTypeCandidate)
  {
    var read := ReadSchema(ed, reg);
    var list := AddHtmlTagCompletionData([], read.schema, parentName) + miscBeginTags;
    if ed.docType.None? then Completions(list + [DocTypeCandidate], read.editor)
    else Completions(list, read.editor)
  }

  /**
    When neither the schema nor the base class offers `!DOCTYPE` itself, the list
    contains it exactly when the document has no doctype.
   */
  lemma DocTypeOfferedIffNoDocType(ed: Editor, reg: SchemaRegistry, parentName: XName, miscBeginTags: seq<Candidate>)
    requires DocTypeCandidate !in AddHtmlTagCompletionData([], ReadSchema(ed, reg).schema, parentName)
    requires DocTypeCandidate !in miscBeginTags
    ensures DocTypeCandidate in GetElementCompletions(ed, reg, parentName, miscBeginTags).list <==> ed.docType.None?
  {
  }

  /**
    `AddHtmlAttributeCompletionData`: walk the provider's attributes for the
    lower-cased tag name and append those the tag does not already have.
   */
  method AddHtmlAttributeCompletionData(list: seq<Candidate>, schema: HtmlSchema, tagName: XName,
                                        existingAtts: Option<map<string, string>>)
    returns (r: seq<Candidate>)
    ensures r == list + WithoutExisting(AttributeData(schema, tagName), existingAtts)
    ensures forall i :: |list| <= i < |r| ==> !AlreadyPresent(existingAtts, r[i])
  {
    var data := AttributeData(schema, tagName);
    r := list;
    var i := 0;
    while i < |data|
      invariant 0 <= i <= |data|
      invariant r == list + WithoutExisting(data[..i], existingAtts)
    {
      var datum := data[i];
      if existingAtts.None? || datum.displayText !in existingAtts.value {
        r := r + [datum];
      }
      assert data[..i + 1][..i] == data[..i];
      i := i + 1;
    }
    assert data[..|data|] == data;
  }

  /**
    `GetAttributeCompletions`: for an unprefixed element, read `Schema` and list
    the element's attributes that are not on the tag yet; for anything else, an
    empty list without touching the schema cache. The source dereferences the
    schema without a null check, so a gated request needs a non-null schema.
   */
  method GetAttributeCompletions(ed: Editor, reg: SchemaRegistry, ob: AttributedObject,
                                 existingAtts: Option<map<string, string>>)
    returns (r: Completions)
    requires IsUnprefixedElement(ob) ==> ReadSchema(ed, reg).schema.Some?
    ensures !IsUnprefixedElement(ob) ==> r == Completions([], ed)
    ensures IsUnprefixedElement(ob) ==>
              var read := ReadSchema(ed, reg);
              var data := AttributeData(read.schema.value, ob.name);
              && r.editor == read.editor
              && IsSubsequence(r.list, data)
              && (forall c :: multiset(r.list)[c] == if AlreadyPresent(existingAtts, c) then 0 else multiset(data)[c])
              && (existingAtts.None? ==> r.list == data)
    ensures forall i :: 0 <= i < |r.list| ==> !AlreadyPresent(existingAtts, r.list[i])
    ensures Coherent(ed, reg) ==> Coherent(r.editor, reg)
    ensures Coherent(ed, reg) && IsUnprefixedElement(ob) ==>
              forall s :: IsActiveSchema(Some(s), ed.docType, reg) ==>
                r.list == WithoutExisting(AttributeData(s, ob.name), existingAtts)
  {
    if IsUnprefixedElement(ob) {
      var read := ReadSchema(ed, reg);
      var list := AddHtmlAttributeCompletionData([], read.schema.value, ob.name, existingAtts);
      var data := AttributeData(read.schema.value, ob.name);
      FilterIsSubsequence(data, existingAtts);
      FilterKeepsAbsent(data, existingAtts);
      NullMapKeepsAll(data);
      assert list == WithoutExisting(data, existingAtts);
      if Coherent(ed, reg) {
        forall s | IsActiveSchema(Some(s), ed.docType, reg)
          ensures list == WithoutExisting(AttributeData(s, ob.name), existingAtts)
        {
          ActiveSchemaIsUnique(Some(s), read.schema, ed.docType, reg);
        }
      }
      r := Completions(list, read.editor);
    } else {
      r := Completions([], ed);
    }
  }

  /** `AddHtmlAttributeValueCompletionData`: append the provider's values for the attribute, names as written. */
  function AddHtmlAttributeValueCompletionData(list: seq<Candidate>, schema: HtmlSchema, tagName: XName,
                                               attributeName: XName): (r: seq<Candidate>)
    ensures |list| <= |r| && r[..|list|] == list
    ensures r[|list|..] == schema.completionProvider.attributeValueData(tagName.fullName, attributeName.fullName)
  {
    list + AttributeValueData(schema, tagName, attributeName)
  }

  /**
    `GetAttributeValueCompletions`: for an unprefixed element, read `Schema` and
    pass the provider's values through unchanged; for anything else, an empty
    list without touching the schema cache.
   */
  function GetAttributeValueCompletions(ed: Editor, reg: SchemaRegistry, ob: AttributedObject, attributeName: XName)
    : (r: Completions)
    requires IsUnprefixedElement(ob) ==> ReadSchema(ed, reg).schema.Some?
    ensures !IsUnprefixedElement(ob) ==> r == Completions([], ed)
    ensures IsUnprefixedElement(ob) ==>
              var read := ReadSchema(ed, reg);
              && r.editor == read.editor
              && r.list == read.schema.value.completionProvider.attributeValueData(ob.name.fullName, attributeName.fullName)
  {
    if IsUnprefixedElement(ob) then
      var read := ReadSchema(ed, reg);
      Completions(AddHtmlAttributeValueCompletionData([], read.schema.value, ob.name, attributeName), read.editor)
    else
      Completions([], ed)
  }

  /**
    Element completion draws on the schema active for the document's doctype:
    from a coherent editor the list starts with that schema's tag data and the
    editor stays coherent.
   */
  lemma ElementCompletionsUseActiveSchema(ed: Editor, reg: SchemaRegistry, parentName: XName,
                                          miscBeginTags: seq<Candidate>)
    requires Coherent(ed, reg)
    ensures var r := GetElementCompletions(ed, reg, parentName, miscBeginTags);
            && Coherent(r.editor, reg)
            && forall s :: IsActiveSchema(s, ed.docType, reg) ==>
                 var tags := AddHtmlTagCompletionData([], s, parentName);
                 |tags| <= |r.list| && r.list[..|tags|] == tags
  {
    var read := ReadSchema(ed, reg);
    assert IsActiveSchema(read.schema, ed.docType, reg);
    var r := GetElementCompletions(ed, reg, parentName, miscBeginTags);
    var tags := AddHtmlTagCompletionData([], read.schema, parentName);
    assert r.list[..|tags| + |miscBeginTags|][..|tags|] == tags;
  }

  /**
    Value completion passes through the values of the schema active for the
    document's doctype: from a coherent editor, for a gated request with a
    non-null schema, the list is exactly that schema's values and the editor
    stays coherent.
   */
  lemma ValueCompletionsUseActiveSchema(ed: Editor, reg: SchemaRegistry, ob: AttributedObject, attributeName: XName)
    requires Coherent(ed, reg)
    requires IsUnprefixedElement(ob) && ReadSchema(ed, reg).schema.Some?
    ensures var r := GetAttributeValueCompletions(ed, reg, ob, attributeName);
            && Coherent(r.editor, reg)
            && (exists s :: IsActiveSchema(Some(s), ed.docType, reg))
            && forall s :: IsActiveSchema(Some(s), ed.docType, reg) ==>
                 r.list == s.completionProvider.attributeValueData(ob.name.fullName, attributeName.fullName)
  {
    var read := ReadSchema(ed, reg);
    assert IsActiveSchema(Some(read.schema.value), ed.docType, reg);
  }

  /** A schema that offers a value only for the attribute `type` on the lower-case element `input`. */
  const LowerCaseInputSchema := HtmlSchema("lower-case-input", CompletionProvider(
    [],
    (parent: string) => [],
    (tag: string) => if tag == "input" then [Candidate("type", "attribute", "")] else [],
    (tag: string, att: string) => if tag == "input" && att == "type" then [Candidate("text", "value", "")] else []))

  /**
    Attribute lookup lower-cases the tag name but value lookup does not: for
    `INPUT` and `input` the attribute lists agree while the value lists differ.
   */
  lemma ValueLookupIsCaseSensitive()
    ensures var upper := XName("INPUT", true, false);
            var lower := XName("input", true, false);
            var att := XName("type", true, false);
            && AttributeData(LowerCaseInputSchema, upper) == AttributeData(LowerCaseInputSchema, lower)
            && AddHtmlAttributeValueCompletionData([], LowerCaseInputSchema, upper, att)
               != AddHtmlAttributeValueCompletionData([], LowerCaseInputSchema, lower, att)
  {
    assert ToLower("INPUT") == "input";
  }
}
