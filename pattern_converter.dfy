/**
 * `XMLConfigurer.PatternConverter`: a compiled regular expression is written as
 * two attributes of its element, the pattern text and its decimal flags. The
 * regular expression itself is opaque here; a pattern is its (text, flags) pair.
 */
module PatternConverter {
  import opened Wrappers
  import opened JavaNumbers
  import opened XmlTree

  /** `java.util.regex.Pattern` as the converter sees it: `pattern()` and `flags()`. */
  datatype Pattern = Pattern(pattern: string, flags: Int32)

  /** The attributes `marshal` adds to the element the enclosing writer opened. */
  function PatternAttributes(p: Pattern): (a: map<string, string>)
    ensures a.Keys == {"pattern", "flags"}
    ensures a["pattern"] == p.pattern && AllDecimalSign(a["flags"])
  {
    map["pattern" := p.pattern, "flags" := IntegerToString(p.flags)]
  }

  /** The text `Integer.toString` produces: an optional minus sign, then at least one digit. */
  predicate AllDecimalSign(s: string) {
    |s| >= 1 && (AllDigits(s) || (s[0] == '-' && |s| >= 2 && AllDigits(s[1..])))
  }

  /** `marshal`: the element keeps its name, children and text; the two attributes are added. */
  method Marshal(p: Pattern, element: Node) returns (n: Node)
    ensures n == element.(attributes := element.attributes + PatternAttributes(p))
  {
    var attributes := element.attributes;
    attributes := attributes["pattern" := p.pattern];
    attributes := attributes["flags" := IntegerToString(p.flags)];
    n := element.(attributes := attributes);
  }

  /** `flags == null || flags.trim().length() == 0`: the flags attribute is absent or blank. */
  predicate NoFlags(flags: Option<string>) {
    flags.None? || IsBlank(flags.value)
  }

  /**
   * `unmarshal`: missing or blank flags compile with no flags; otherwise the flags
   * are parsed first, so a non-numeric value fails before a missing pattern does.
   */
  function UnmarshalPattern(n: Node): (r: Result<Pattern, XmlError>)
    ensures r.Ok? ==> Attribute(n, "pattern") == Some(r.value.pattern)
    ensures NoFlags(Attribute(n, "flags")) ==>
      (r.Ok? <==> "pattern" in n.attributes) && (r.Ok? ==> r.value.flags == 0) && (r.Err? ==> r == Err(NullPattern))
    ensures !NoFlags(Attribute(n, "flags")) ==>
      (ParseInt(n.attributes["flags"]).None? ==> r == Err(NumberFormat(n.attributes["flags"])))
      && (r.Ok? ==> ParseInt(n.attributes["flags"]) == Some(r.value.flags))
    ensures !NoFlags(Attribute(n, "flags")) && ParseInt(n.attributes["flags"]).Some? ==>
      (r.Ok? <==> "pattern" in n.attributes) && (r.Err? ==> r == Err(NullPattern))
  {
    var pattern := Attribute(n, "pattern");
    var flags := Attribute(n, "flags");
    if NoFlags(flags) then
      if pattern.None? then Err(NullPattern) else Ok(Pattern(pattern.value, 0))
    else
      match ParseInt(flags.value)
      case None => Err(NumberFormat(flags.value))
      case Some(f) => if pattern.None? then Err(NullPattern) else Ok(Pattern(pattern.value, f))
  }

  /** Round trip: a written pattern reads back as the same (text, flags) pair, whatever else the element holds. */
  lemma RoundTrip(p: Pattern, element: Node)
    ensures UnmarshalPattern(element.(attributes := element.attributes + PatternAttributes(p))) == Ok(p)
  {
    var n := element.(attributes := element.attributes + PatternAttributes(p));
    assert Attribute(n, "flags") == Some(IntegerToString(p.flags));
    IntegerToStringNotBlank(p.flags);
    ParseIntToString(p.flags);
  }
}
