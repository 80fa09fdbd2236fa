/**
 * `XMLConfigurer.AssertCheckConverter`: the hand-written element shape of an
 * `assert` check. Scalar settings are attributes, written only when they differ
 * from their defaults; the expression is an `expr` child element, so that it may
 * span lines; the profiles and the applies-to targets are child lists.
 */
module AssertConverter {
  import opened Wrappers
  import opened JavaNumbers
  import opened CheckTypes
  import opened XmlTree

  /** The message and error code an `AssertCheck` reports when none was set. */
  const DEFAULT_MESSAGE := "net.sf.oval.constraint.Assert.violated"
  const DEFAULT_ERROR_CODE := "net.sf.oval.constraint.Assert"

  /** The settings of an `AssertCheck` the converter reads or writes; `None` is `null`. */
  datatype AssertCheck = AssertCheck(
    lang: Option<string>,
    expr: Option<string>,
    when: Option<string>,
    target: Option<string>,
    message: Option<string>,
    errorCode: Option<string>,
    severity: Int32,
    profiles: Option<seq<string>>,
    appliesTo: Option<seq<ConstraintTarget>>)
  {
    /** `getMessage()`: the default message while none is set. */
    function Message(): string {
      if message.Some? then message.value else DEFAULT_MESSAGE
    }

    /** `getErrorCode()`: the default error code while none is set. */
    function ErrorCode(): string {
      if errorCode.Some? then errorCode.value else DEFAULT_ERROR_CODE
    }

    /** `getAppliesTo()`: the check's default targets while none are set. */
    function AppliesTo(): seq<ConstraintTarget> {
      if appliesTo.Some? then appliesTo.value else [CONTAINER]
    }
  }

  /** `new AssertCheck()`: nothing set, severity 0. */
  const NEW_ASSERT_CHECK := AssertCheck(None, None, None, None, None, None, 0, None, None)

  /** The element shape writes `lang` as an attribute and `expr` as text, so neither may be `null`. */
  predicate CanMarshal(c: AssertCheck) {
    c.lang.Some? && c.expr.Some?
  }

  // ---------------------------------------------------------------- marshal

  /** The attributes `marshal` writes. */
  function AssertAttributes(c: AssertCheck): map<string, string>
    requires c.lang.Some?
  {
    var withLang := map["lang" := c.lang.value];
    var withMessage := if c.Message() != DEFAULT_MESSAGE then withLang["message" := c.Message()] else withLang;
    var withErrorCode := if c.ErrorCode() != DEFAULT_ERROR_CODE then withMessage["errorCode" := c.ErrorCode()] else withMessage;
    var withSeverity := withErrorCode["severity" := IntegerToString(c.severity)];
    if c.when.Some? then withSeverity["when" := c.when.value] else withSeverity
  }

  /** One `string` element per profile, in order. */
  function StringItems(profiles: seq<string>): (items: seq<Node>)
    ensures |items| == |profiles|
  {
    seq(|profiles|, i requires 0 <= i < |profiles| => TextElement("string", profiles[i]))
  }

  /** One `constraintTarget` element per target name, in order. */
  function TargetItems(targets: seq<ConstraintTarget>): (items: seq<Node>)
    ensures |items| == |targets|
  {
    seq(|targets|, i requires 0 <= i < |targets| => TextElement("constraintTarget", Name(targets[i])))
  }

  /** `expr`, then `profiles` and `appliesTo` when they are non-empty. */
  function AssertChildren(c: AssertCheck): seq<Node>
    requires c.expr.Some?
  {
    [TextElement("expr", c.expr.value)]
    + (if c.profiles.Some? && |c.profiles.value| > 0 then [Node("profiles", map[], StringItems(c.profiles.value), "")] else [])
    + (if |c.AppliesTo()| > 0 then [Node("appliesTo", map[], TargetItems(c.AppliesTo()), "")] else [])
  }

  /** The element `marshal` produces under the `assert` alias. */
  function AssertElement(c: AssertCheck): Node
    requires CanMarshal(c)
  {
    Node("assert", AssertAttributes(c), AssertChildren(c), "")
  }

  /** `marshal`: the writer calls in source order. */
  method Marshal(c: AssertCheck) returns (n: Node)
    requires CanMarshal(c)
    ensures n == AssertElement(c)
  {
    var attributes: map<string, string> := map[];
    attributes := attributes["lang" := c.lang.value];
    if c.Message() != DEFAULT_MESSAGE {
      attributes := attributes["message" := c.Message()];
    }
    if c.ErrorCode() != DEFAULT_ERROR_CODE {
      attributes := attributes["errorCode" := c.ErrorCode()];
    }
    attributes := attributes["severity" := IntegerToString(c.severity)];
    if c.when.Some? {
      attributes := attributes["when" := c.when.value];
    }
    var children := [TextElement("expr", c.expr.value)];
    var profiles := c.profiles;
    if profiles.Some? && |profiles.value| > 0 {
      var items: seq<Node> := [];
      for i := 0 to |profiles.value|
        invariant items == StringItems(profiles.value[..i])
      {
        items := items + [TextElement("string", profiles.value[i])];
      }
      assert profiles.value[..|profiles.value|] == profiles.value;
      children := children + [Node("profiles", map[], items, "")];
    }
    var appliesTo := c.AppliesTo();
    if |appliesTo| > 0 {
      var items: seq<Node> := [];
      for i := 0 to |appliesTo|
        invariant items == TargetItems(appliesTo[..i])
      {
        items := items + [TextElement("constraintTarget", Name(appliesTo[i]))];
      }
      assert appliesTo[..|appliesTo|] == appliesTo;
      children := children + [Node("appliesTo", map[], items, "")];
    }
    n := Node("assert", attributes, children, "");
  }

  // -------------------------------------------------------------- unmarshal

  /** The attribute phase of `unmarshal`; a non-numeric `severity` fails. */
  function ReadAttributes(n: Node): Result<AssertCheck, XmlError> {
    var c := NEW_ASSERT_CHECK.(lang := Attribute(n, "lang"), message := Attribute(n, "message"), errorCode := Attribute(n, "errorCode"));
    var severity := Attribute(n, "severity");
    if severity.Some? && ParseInt(severity.value).None? then Err(NumberFormat(severity.value))
    else
      var withSeverity := if severity.Some? then c.(severity := ParseInt(severity.value).value) else c;
      var withExpr := if Attribute(n, "expr").Some? then withSeverity.(expr := Attribute(n, "expr")) else withSeverity;
      Ok(withExpr.(target := Attribute(n, "target"), when := Attribute(n, "when")))
  }

  /** The targets inside `appliesTo`: only `constraintTarget` elements count; an unknown name fails. */
  function TargetsOf(items: seq<Node>): Result<seq<ConstraintTarget>, XmlError> {
    if items == [] then Ok([])
    else if items[0].name == "constraintTarget" then
      match ValueOf(items[0].value)
      case None => Err(UnknownConstraintTarget(items[0].value))
      case Some(t) =>
        match TargetsOf(items[1..])
        case Err(e) => Err(e)
        case Ok(ts) => Ok([t] + ts)
    else TargetsOf(items[1..])
  }

  /** `r` with `done` in front of its targets. */
  function PrependTargets(done: seq<ConstraintTarget>, r: Result<seq<ConstraintTarget>, XmlError>): Result<seq<ConstraintTarget>, XmlError> {
    match r
    case Err(e) => Err(e)
    case Ok(ts) => Ok(done + ts)
  }

  /** The profiles inside `profiles`: the texts of the `string` elements, in order. */
  function ProfilesOf(items: seq<Node>): seq<string> {
    if items == [] then []
    else (if items[0].name == "string" then [items[0].value] else []) + ProfilesOf(items[1..])
  }

  /** One step of the child walk; unknown element names change nothing. */
  function ApplyChild(c: AssertCheck, child: Node): Result<AssertCheck, XmlError> {
    if child.name == "appliesTo" then
      match TargetsOf(child.children)
      case Err(e) => Err(e)
      case Ok(ts) => Ok(c.(appliesTo := Some(ts)))
    else if child.name == "expr" then Ok(c.(expr := Some(child.value)))
    else if child.name == "profiles" then Ok(c.(profiles := Some(ProfilesOf(child.children))))
    else Ok(c)
  }

  /** The child walk, in document order, stopping at the first failure. */
  function ApplyChildren(c: AssertCheck, children: seq<Node>): Result<AssertCheck, XmlError>
    decreases children
  {
    if children == [] then Ok(c)
    else
      match ApplyChild(c, children[0])
      case Err(e) => Err(e)
      case Ok(next) => ApplyChildren(next, children[1..])
  }

  /** The check `unmarshal` builds from an element: attributes first, then the children. */
  function UnmarshalAssert(n: Node): Result<AssertCheck, XmlError> {
    match ReadAttributes(n)
    case Err(e) => Err(e)
    case Ok(c) => ApplyChildren(c, n.children)
  }

  /** The walk inside `appliesTo`: each `constraintTarget` is converted by `valueOf`, other elements are skipped. */
  method ReadTargets(items: seq<Node>) returns (r: Result<seq<ConstraintTarget>, XmlError>)
    ensures r == TargetsOf(items)
  {
    var targets: seq<ConstraintTarget> := [];
    var j := 0;
    assert items[0..] == items;
    assert PrependTargets([], TargetsOf(items)) == TargetsOf(items) by {
      if TargetsOf(items).Ok? {
        assert [] + TargetsOf(items).value == TargetsOf(items).value;
      }
    }
    while j < |items|
      invariant 0 <= j <= |items|
      invariant TargetsOf(items) == PrependTargets(targets, TargetsOf(items[j..]))
    {
      var item := items[j];
      assert items[j..][0] == item && items[j..][1..] == items[j + 1..];
      if item.name == "constraintTarget" {
        var t := ValueOf(item.value);
        if t.None? {
          return Err(UnknownConstraintTarget(item.value));
        }
        assert TargetsOf(items[j..]) == PrependTargets([t.value], TargetsOf(items[j + 1..]));
        if TargetsOf(items[j + 1..]).Ok? {
          assert targets + ([t.value] + TargetsOf(items[j + 1..]).value) == (targets + [t.value]) + TargetsOf(items[j + 1..]).value;
        }
        targets := targets + [t.value];
      }
      j := j + 1;
    }
    assert items[j..] == [];
    assert targets + [] == targets;
    r := Ok(targets);
  }

  /** The walk inside `profiles`: the texts of the `string` elements, in order. */
  method ReadProfiles(items: seq<Node>) returns (profiles: seq<string>)
    ensures profiles == ProfilesOf(items)
  {
    profiles := [];
    var j := 0;
    while j < |items|
      invariant 0 <= j <= |items|
      invariant ProfilesOf(items) == profiles + ProfilesOf(items[j..])
    {
      var item := items[j];
      assert items[j..][0] == item && items[j..][1..] == items[j + 1..];
      if item.name == "string" {
        profiles := profiles + [item.value];
      }
      j := j + 1;
    }
    assert items[j..] == [];
    assert profiles + [] == profiles;
  }

  /**
   * `unmarshal` without the listener notification: the setters on a fresh check,
   * then the cursor walk over the children with the two nested list walks.
   */
  method Unmarshal(n: Node) returns (r: Result<AssertCheck, XmlError>)
    ensures r == UnmarshalAssert(n)
  {
    var check := NEW_ASSERT_CHECK;
    check := check.(lang := Attribute(n, "lang"));
    check := check.(message := Attribute(n, "message"));
    check := check.(errorCode := Attribute(n, "errorCode"));
    var severity := Attribute(n, "severity");
    if severity.Some? {
      var parsed := ParseInt(severity.value);
      if parsed.None? {
        return Err(NumberFormat(severity.value));
      }
      check := check.(severity := parsed.value);
    }
    if Attribute(n, "expr").Some? {
      check := check.(expr := Attribute(n, "expr"));
    }
    check := check.(target := Attribute(n, "target"));
    check := check.(when := Attribute(n, "when"));
    assert ReadAttributes(n) == Ok(check);

    var kids := n.children;
    var i := 0;
    while i < |kids|
      invariant 0 <= i <= |kids|
      invariant ApplyChildren(check, kids[i..]) == UnmarshalAssert(n)
    {
      var child := kids[i];
      assert kids[i..][0] == child && kids[i..][1..] == kids[i + 1..];
      if child.name == "appliesTo" {
        var targets := ReadTargets(child.children);
        if targets.Err? {
          return Err(targets.error);
        }
        check := check.(appliesTo := Some(targets.value));
      } else if child.name == "expr" {
        check := check.(expr := Some(child.value));
      } else if child.name == "profiles" {
        var profiles := ReadProfiles(child.children);
        check := check.(profiles := Some(profiles));
      }
      i := i + 1;
    }
    assert kids[i..] == [];
    r := Ok(check);
  }

  // ----------------------------------------------------------------- proofs

  lemma {:induction false} ProfilesOfItems(profiles: seq<string>)
    ensures ProfilesOf(StringItems(profiles)) == profiles
  {
    if profiles != [] {
      assert StringItems(profiles)[1..] == StringItems(profiles[1..]);
      ProfilesOfItems(profiles[1..]);
    }
  }

  lemma {:induction false} TargetsOfItems(targets: seq<ConstraintTarget>)
    ensures TargetsOf(TargetItems(targets)) == Ok(targets)
  {
    if targets != [] {
      var items := TargetItems(targets);
      assert items[0].name == "constraintTarget" && items[0].value == Name(targets[0]);
      ValueOfName(Name(targets[0]), targets[0]);
      assert items[1..] == TargetItems(targets[1..]);
      TargetsOfItems(targets[1..]);
      assert [targets[0]] + targets[1..] == targets;
    }
  }

  /** What survives `unmarshal(marshal(c))`: everything the element carries, with defaults left unset. */
  function RoundTripped(c: AssertCheck): AssertCheck {
    c.(target := None,
       message := if c.Message() == DEFAULT_MESSAGE then None else Some(c.Message()),
       errorCode := if c.ErrorCode() == DEFAULT_ERROR_CODE then None else Some(c.ErrorCode()),
       profiles := if c.profiles.Some? && |c.profiles.value| > 0 then c.profiles else None,
       appliesTo := if |c.AppliesTo()| > 0 then Some(c.AppliesTo()) else None)
  }

  /** The attribute names of an `assert` element are pairwise different. */
  lemma AttributeNamesDistinct()
    ensures "lang" != "message" && "lang" != "errorCode" && "lang" != "severity" && "lang" != "when"
    ensures "lang" != "expr" && "lang" != "target" && "message" != "errorCode" && "message" != "severity"
    ensures "message" != "when" && "message" != "expr" && "message" != "target" && "errorCode" != "severity"
    ensures "errorCode" != "when" && "errorCode" != "expr" && "errorCode" != "target" && "severity" != "when"
    ensures "severity" != "expr" && "severity" != "target" && "when" != "expr" && "when" != "target"
  {
    assert "lang"[1] == 'a' && "message"[1] == 'e' && "errorCode"[1] == 'r' && "severity"[1] == 'e';
    assert "when"[1] == 'h' && "expr"[1] == 'x' && "target"[1] == 'a';
    assert "message"[0] != "severity"[0] && "lang"[0] != "target"[0];
  }

  /** Where each setting lands among the attributes `marshal` writes. */
  lemma AttributesWritten(c: AssertCheck)
    requires c.lang.Some?
    ensures var a := AssertAttributes(c);
      && "lang" in a && a["lang"] == c.lang.value
      && "severity" in a && a["severity"] == IntegerToString(c.severity)
      && ("message" in a <==> c.Message() != DEFAULT_MESSAGE) && ("message" in a ==> a["message"] == c.Message())
      && ("errorCode" in a <==> c.ErrorCode() != DEFAULT_ERROR_CODE) && ("errorCode" in a ==> a["errorCode"] == c.ErrorCode())
      && ("when" in a <==> c.when.Some?) && ("when" in a ==> a["when"] == c.when.value)
      && "expr" !in a && "target" !in a
  {
    AttributeNamesDistinct();
    var withLang := map["lang" := c.lang.value];
    var withMessage := if c.Message() != DEFAULT_MESSAGE then withLang["message" := c.Message()] else withLang;
    assert withMessage.Keys <= {"lang", "message"};
    var withErrorCode := if c.ErrorCode() != DEFAULT_ERROR_CODE then withMessage["errorCode" := c.ErrorCode()] else withMessage;
    assert withErrorCode.Keys <= {"lang", "message", "errorCode"};
    var withSeverity := withErrorCode["severity" := IntegerToString(c.severity)];
    assert AssertAttributes(c) == if c.when.Some? then withSeverity["when" := c.when.value] else withSeverity;
  }

  /** The attribute part of the round trip: what `marshal` writes as attributes reads back as the same settings. */
  lemma ReadAttributesBack(c: AssertCheck)
    requires CanMarshal(c)
    ensures ReadAttributes(AssertElement(c)) == Ok(NEW_ASSERT_CHECK.(lang := c.lang, message := RoundTripped(c).message,
              errorCode := RoundTripped(c).errorCode, severity := c.severity, when := c.when))
  {
    var n := AssertElement(c);
    ParseIntToString(c.severity);
    AttributesWritten(c);
    assert n.attributes == AssertAttributes(c);
  }

  /**
   * Round trip: reading back a written `assert` element restores lang, severity,
   * when, expr, the message and error code as reported, and non-empty profiles and
   * targets in order; `target` is never written, so it comes back unset.
   */
  lemma RoundTrip(c: AssertCheck)
    requires CanMarshal(c)
    ensures UnmarshalAssert(AssertElement(c)) == Ok(RoundTripped(c))
    ensures var r := RoundTripped(c);
      && r.lang == c.lang && r.expr == c.expr && r.when == c.when && r.severity == c.severity
      && r.Message() == c.Message() && r.ErrorCode() == c.ErrorCode() && r.target.None?
      && (|c.AppliesTo()| > 0 ==> r.AppliesTo() == c.AppliesTo())
  {
    var n := AssertElement(c);
    var c0 := NEW_ASSERT_CHECK.(lang := c.lang, message := RoundTripped(c).message, errorCode := RoundTripped(c).errorCode,
                                 severity := c.severity, when := c.when);
    ReadAttributesBack(c);
    var expr := TextElement("expr", c.expr.value);
    var c1 := c0.(expr := c.expr);
    assert ApplyChild(c0, expr) == Ok(c1);
    var rest := n.children[1..];
    assert n.children == [expr] + rest;
    var c2 := c1.(profiles := RoundTripped(c).profiles);
    var c3 := c2.(appliesTo := RoundTripped(c).appliesTo);
    assert c3 == RoundTripped(c);
    assert ApplyChildren(c0, n.children) == ApplyChildren(c1, rest);
    if c.profiles.Some? && |c.profiles.value| > 0 {
      var p := Node("profiles", map[], StringItems(c.profiles.value), "");
      ProfilesOfItems(c.profiles.value);
      assert ApplyChild(c1, p) == Ok(c2);
      if |c.AppliesTo()| > 0 {
        var a := Node("appliesTo", map[], TargetItems(c.AppliesTo()), "");
        TargetsOfItems(c.AppliesTo());
        assert rest == [p, a] && rest[1..] == [a];
        assert ApplyChild(c2, a) == Ok(c3);
        assert ApplyChildren(c2, [a]) == Ok(c3);
        assert ApplyChildren(c1, rest) == ApplyChildren(c2, [a]);
      } else {
        assert rest == [p] && rest[1..] == [];
        assert c2 == c3;
        assert ApplyChildren(c2, []) == Ok(c2);
        assert ApplyChildren(c1, rest) == Ok(c2);
      }
    } else {
      if |c.AppliesTo()| > 0 {
        var a := Node("appliesTo", map[], TargetItems(c.AppliesTo()), "");
        TargetsOfItems(c.AppliesTo());
        assert rest == [a];
        assert ApplyChild(c1, a) == Ok(c3);
        assert ApplyChildren(c1, [a]) == Ok(c3);
      } else {
        assert rest == [] && n.children == [expr];
        assert c1 == c3;
        assert ApplyChildren(c1, []) == Ok(c1);
      }
    }
  }

  /**
   * Placement: `lang` and `severity` are always attributes; `message`, `errorCode`
   * and `when` only when not at their default; `expr` and `target` never are.
   * `expr` is always the first child.
   */
  lemma AttributePlacement(c: AssertCheck)
    requires CanMarshal(c)
    ensures var a := AssertElement(c).attributes;
      && a["lang"] == c.lang.value
      && "severity" in a && ParseInt(a["severity"]) == Some(c.severity)
      && ("message" in a <==> c.Message() != DEFAULT_MESSAGE)
      && ("errorCode" in a <==> c.ErrorCode() != DEFAULT_ERROR_CODE)
      && ("when" in a <==> c.when.Some?)
      && "expr" !in a && "target" !in a
    ensures AssertElement(c).children[0] == TextElement("expr", c.expr.value)
  {
    ParseIntToString(c.severity);
    AttributesWritten(c);
    assert AssertElement(c).attributes == AssertAttributes(c);
  }

  lemma {:induction false} ApplyChildrenSplit(c: AssertCheck, a: seq<Node>, b: seq<Node>)
    ensures ApplyChildren(c, a + b) == match ApplyChildren(c, a) case Err(e) => Err(e) case Ok(d) => ApplyChildren(d, b)
    decreases a
  {
    if a != [] {
      assert (a + b)[0] == a[0] && (a + b)[1..] == a[1..] + b;
      match ApplyChild(c, a[0])
      case Err(e) =>
      case Ok(next) => ApplyChildrenSplit(next, a[1..], b);
    } else {
      assert a + b == b;
    }
  }

  /** The child walk changes nothing but `expr`, `profiles` and `appliesTo`. */
  lemma {:induction false} ChildrenSetOnlyChildFields(c: AssertCheck, kids: seq<Node>)
    ensures ApplyChildren(c, kids).Ok? ==>
      ApplyChildren(c, kids).value.(expr := c.expr, profiles := c.profiles, appliesTo := c.appliesTo) == c
    decreases kids
  {
    if kids != [] {
      match ApplyChild(c, kids[0])
      case Err(e) =>
      case Ok(next) => ChildrenSetOnlyChildFields(next, kids[1..]);
    }
  }

  /** Children with other names leave `expr` as it was. */
  lemma {:induction false} ApplyChildrenKeepsExpr(c: AssertCheck, kids: seq<Node>)
    requires forall j :: 0 <= j < |kids| ==> kids[j].name != "expr"
    ensures ApplyChildren(c, kids).Ok? ==> ApplyChildren(c, kids).value.expr == c.expr
    decreases kids
  {
    if kids != [] {
      match ApplyChild(c, kids[0])
      case Err(e) =>
      case Ok(next) => ApplyChildrenKeepsExpr(next, kids[1..]);
    }
  }

  /**
   * Children are read after attributes: the last `expr` child decides `expr`,
   * whatever an `expr` attribute said.
   */
  lemma ExprChildOverridesAttribute(n: Node, i: nat)
    requires i < |n.children| && n.children[i].name == "expr"
    requires forall j :: i < j < |n.children| ==> n.children[j].name != "expr"
    ensures UnmarshalAssert(n).Ok? ==> UnmarshalAssert(n).value.expr == Some(n.children[i].value)
  {
    var kids := n.children;
    if ReadAttributes(n).Ok? {
      var c := ReadAttributes(n).value;
      assert kids == kids[..i] + ([kids[i]] + kids[i + 1..]);
      ApplyChildrenSplit(c, kids[..i], [kids[i]] + kids[i + 1..]);
      if ApplyChildren(c, kids[..i]).Ok? {
        var d := ApplyChildren(c, kids[..i]).value;
        assert ([kids[i]] + kids[i + 1..])[1..] == kids[i + 1..];
        ApplyChildrenKeepsExpr(d.(expr := Some(kids[i].value)), kids[i + 1..]);
      }
    }
  }

  /** `severity` is set only from a present attribute; otherwise it stays 0. */
  lemma SeverityOnlyFromAttribute(n: Node)
    ensures UnmarshalAssert(n).Ok? ==>
      UnmarshalAssert(n).value.severity == if "severity" in n.attributes then ParseInt(n.attributes["severity"]).value else 0
  {
    if ReadAttributes(n).Ok? {
      ChildrenSetOnlyChildFields(ReadAttributes(n).value, n.children);
    }
  }

  /** Inserting a child with an unknown name anywhere changes nothing. */
  lemma {:induction false} UnknownChildIgnored(c: AssertCheck, kids: seq<Node>, i: nat, extra: Node)
    requires i <= |kids|
    requires extra.name != "appliesTo" && extra.name != "expr" && extra.name != "profiles"
    ensures ApplyChildren(c, kids[..i] + [extra] + kids[i..]) == ApplyChildren(c, kids)
    decreases i
  {
    if i == 0 {
      assert kids[..0] + [extra] + kids[0..] == [extra] + kids;
      assert ([extra] + kids)[1..] == kids;
    } else {
      var longer := kids[..i] + [extra] + kids[i..];
      assert longer[0] == kids[0];
      assert longer[1..] == kids[1..][..i - 1] + [extra] + kids[1..][i - 1..];
      match ApplyChild(c, kids[0])
      case Err(e) =>
      case Ok(next) => UnknownChildIgnored(next, kids[1..], i - 1, extra);
    }
  }

  /** Reading `appliesTo` fails exactly when one of its `constraintTarget` elements names no target. */
  lemma {:induction false} TargetsOfFails(items: seq<Node>)
    ensures TargetsOf(items).Err? <==>
      exists k :: 0 <= k < |items| && items[k].name == "constraintTarget" && ValueOf(items[k].value).None?
  {
    if items != [] {
      TargetsOfFails(items[1..]);
      if TargetsOf(items[1..]).Err? {
        var k :| 0 <= k < |items[1..]| && items[1..][k].name == "constraintTarget" && ValueOf(items[1..][k].value).None?;
        assert items[k + 1] == items[1..][k];
      }
      if exists k :: 0 < k < |items| && items[k].name == "constraintTarget" && ValueOf(items[k].value).None? {
        var k :| 0 < k < |items| && items[k].name == "constraintTarget" && ValueOf(items[k].value).None?;
        assert items[1..][k - 1] == items[k];
      }
    }
  }
}
