/** The file-name filter that picks custom definition files out of a directory listing. */
module XmlFilter {

  /** The suffix a definition file must carry; compared character by character, so the case
      matters. */
  const XmlSuffix := ".xml"

  /** `s` ends with `suffix`. */
  predicate EndsWith(s: string, suffix: string)
  {
    |suffix| <= |s| && s[|s| - |suffix|..] == suffix
  }

  /** The filter accepts a file name exactly when it is some stem followed by ".xml". */
  function Accept(filename: string): (b: bool)
    ensures b <==> exists stem :: filename == stem + XmlSuffix
  {
    if EndsWith(filename, XmlSuffix) then
      var stem := filename[..|filename| - |XmlSuffix|];
      assert filename == stem + XmlSuffix;
      true
    else
      assert forall stem :: filename != stem + XmlSuffix by {
        forall stem
          ensures filename != stem + XmlSuffix
        {
          AcceptsXmlName(stem);
        }
      }
      false
  }

  /** Every name of the form stem + ".xml" is accepted, whatever the stem (also the empty one). */
  lemma AcceptsXmlName(stem: string)
    ensures EndsWith(stem + XmlSuffix, XmlSuffix)
  {
    assert (stem + XmlSuffix)[|stem|..] == XmlSuffix;
  }

  /** Every accepted name is some stem followed by ".xml". */
  lemma AcceptedHasStem(filename: string)
    requires Accept(filename)
    ensures |filename| >= |XmlSuffix|
    ensures filename == filename[..|filename| - |XmlSuffix|] + XmlSuffix
  {
  }

  /** Adding anything after ".xml", or changing its case, takes a name out of the filter. */
  lemma RejectsNearMisses()
    ensures !Accept("pony.XML")
    ensures !Accept("pony.xml.bak")
    ensures !Accept("xml")
  {
  }
}
