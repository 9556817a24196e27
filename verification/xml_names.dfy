/**
  The parts of the XML object model that the completion layer looks at. Their
  defining files are not part of this model, so a name is represented by the
  three observations the completion code makes of it.
 */
module XmlNames {

  /**
    A qualified XML name as seen by the completion code: its full (possibly
    prefixed) text, whether it names anything at all (`IsValid`; a parent name
    at the document root is not valid) and whether it carries a namespace prefix.
   */
  datatype XName = XName(fullName: string, isValid: bool, hasPrefix: bool)

  /** An object that can carry attributes: an element, or some other attributed node. */
  datatype AttributedObject = XElement(name: XName) | OtherAttributedObject(name: XName)

  /** The gate of the attribute and attribute-value paths: an element without a namespace prefix. */
  predicate IsUnprefixedElement(ob: AttributedObject) {
    ob.XElement? && !ob.name.hasPrefix
  }

  predicate IsUpper(c: char) {
    'A' <= c <= 'Z'
  }

  /** ASCII lower-casing of one character. */
  function LowerChar(c: char): char {
    if IsUpper(c) then (c as int - 'A' as int + 'a' as int) as char else c
  }

  /** ASCII lower-casing of a string, character by character. */
  function ToLower(s: string): (r: string)
    ensures |r| == |s|
    ensures forall i :: 0 <= i < |s| ==> r[i] == LowerChar(s[i])
  {
    seq(|s|, i requires 0 <= i < |s| => LowerChar(s[i]))
  }

  /**
    Two characters are the same letter up to ASCII case: equal, or one is an
    upper-case letter and the other sits 32 code points above it.
   */
  predicate SameLetterIgnoringCase(c: char, d: char) {
    || c == d
    || (IsUpper(c) && d as int == c as int + 32)
    || (IsUpper(d) && c as int == d as int + 32)
  }

  /** Two strings that differ only in the case of ASCII letters. */
  predicate EqualIgnoringCase(a: string, b: string) {
    |a| == |b| && forall i :: 0 <= i < |a| ==> SameLetterIgnoringCase(a[i], b[i])
  }

  /** Lower-casing maps two strings to the same key exactly when they differ only in case. */
  lemma ToLowerIdentifiesCaseVariants(a: string, b: string)
    ensures ToLower(a) == ToLower(b) <==> EqualIgnoringCase(a, b)
  {
    if ToLower(a) == ToLower(b) {
      forall i | 0 <= i < |a|
        ensures SameLetterIgnoringCase(a[i], b[i])
      {
        assert LowerChar(a[i]) == ToLower(b)[i];
      }
    }
    if EqualIgnoringCase(a, b) {
      assert forall i :: 0 <= i < |a| ==> ToLower(a)[i] == ToLower(b)[i];
    }
  }
}
