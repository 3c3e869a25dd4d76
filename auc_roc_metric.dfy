/**
 * The AUC-ROC evaluation metric descriptor: an immutable record naming the
 * class label to score and saying whether the full ROC curve is wanted.
 * It is read from a document through a declared lenient parser, written to a
 * document builder, compared by content, and tagged with a fixed name.
 */
module AucRocMetric {
  import opened Wrappers
  import opened XContent
  import opened ObjectParser

  /** The type tag shared with the result type, under which the metric is dispatched. */
  const NAME: string := "auc_roc"

  const CLASS_NAME: string := "class_name"
  const INCLUDE_CURVE: string := "include_curve"

  /** The parser tolerates fields it does not know. */
  const LENIENT: bool := true

  /** The fields the parser declares: a required string and an optional boolean. */
  const FIELDS: seq<FieldDecl> :=
    [FieldDecl(CLASS_NAME, StringField, true), FieldDecl(INCLUDE_CURVE, BooleanField, false)]

  /**
   * The metric. `includeCurve` has three states: absent (`None`), or present
   * with `true` or `false`. A `string` here is never null; a null class name
   * is refused when the metric is built (see `New`).
   */
  datatype Metric = Metric(className: string, includeCurve: Option<bool>)

  /** The general constructor: a null class name is refused, both arguments are otherwise kept as they are. */
  function New(className: Option<string>, includeCurve: Option<bool>): (r: Result<Metric, Error>)
    ensures r.Ok? <==> className.Some?
    ensures r.Ok? ==> r.value.className == className.value && r.value.includeCurve == includeCurve
    ensures r.Err? ==> r.error == NullArgument
  {
    match className
    case None => Err(NullArgument)
    case Some(c) => Ok(Metric(c, includeCurve))
  }

  /** A metric for `className` that explicitly asks for no curve. */
  function ForClass(className: Option<string>): (r: Result<Metric, Error>)
    ensures r.Ok? <==> className.Some?
    ensures r.Ok? ==> r.value.className == className.value && r.value.includeCurve == Some(false)
    ensures r.Err? ==> r.error == NullArgument
  {
    New(className, Some(false))
  }

  /** A metric for `className` that asks for the curve. */
  function ForClassWithCurve(className: Option<string>): (r: Result<Metric, Error>)
    ensures r.Ok? <==> className.Some?
    ensures r.Ok? ==> r.value.className == className.value && r.value.includeCurve == Some(true)
    ensures r.Err? ==> r.error == NullArgument
  {
    New(className, Some(true))
  }

  /** The cast of the first constructor argument to a string; an absent field is null. */
  function AsString(arg: Option<Value>): Option<string>
  {
    match arg
    case Some(VStr(s)) => Some(s)
    case _ => None
  }

  /** The cast of the second constructor argument to a boxed boolean; an absent field is null. */
  function AsBoolean(arg: Option<Value>): Option<bool>
  {
    match arg
    case Some(VBool(b)) => Some(b)
    case _ => None
  }

  /** Builds the metric from the parser's arguments, as the parser's constructor callback does. */
  function Construct(args: Args): (r: Result<Metric, Error>)
    requires |args| == 2
    ensures r.Ok? <==> args[0].Some? && args[0].value.VStr?
    ensures r.Ok? ==> args[0] == Some(VStr(r.value.className))
    ensures r.Ok? ==> r.value.includeCurve == (if args[1].Some? && args[1].value.VBool? then Some(args[1].value.b) else None)
    ensures r.Err? ==> r.error == NullArgument
  {
    New(AsString(args[0]), AsBoolean(args[1]))
  }

  /** Sets up the shared parser: named after the metric, lenient, with its two fields declared. */
  method BuildParser() returns (p: ConstructingParser)
    ensures fresh(p)
    ensures p.name == NAME && p.lenient == LENIENT && p.decls == FIELDS
  {
    p := new ConstructingParser(NAME, LENIENT);
    p.DeclareString(true, CLASS_NAME);
    p.DeclareBoolean(false, INCLUDE_CURVE);
  }

  /** Reads a metric from one object of a document. */
  function FromXContent(doc: Document): (r: Result<Metric, Error>)
    ensures r.Err? ==> r.error.MissingRequiredField? || r.error.TypeMismatch?
    ensures r.Ok? ==> Lookup(doc, CLASS_NAME) == Some(VStr(r.value.className))
    ensures r.Ok? ==> Lookup(doc, INCLUDE_CURVE).None? || Lookup(doc, INCLUDE_CURVE).value.VBool?
    ensures r.Ok? ==> r.value.includeCurve == AsBoolean(Lookup(doc, INCLUDE_CURVE))
  {
    match ParseFields(FIELDS, LENIENT, doc)
    case Err(e) => Err(e)
    case Ok(args) =>
      assert FIELDS[0].name == CLASS_NAME && FIELDS[0].required && FIELDS[1].name == INCLUDE_CURVE;
      LookupFound(doc, CLASS_NAME);
      if Lookup(doc, INCLUDE_CURVE).Some? then
        LookupFound(doc, INCLUDE_CURVE);
        Construct(args)
      else
        Construct(args)
  }

  /** The shared parser, once set up, reads exactly as `FromXContent` does. */
  method ApplyParser(p: ConstructingParser, doc: Document) returns (r: Result<Metric, Error>)
    requires p.decls == FIELDS && p.lenient == LENIENT
    ensures r == FromXContent(doc)
  {
    var args := p.Apply(doc);
    match args
    case Err(e) => r := Err(e);
    case Ok(a) => r := Construct(a);
  }

  /**
   * The entries the metric writes: `class_name` first, then `include_curve`
   * only when it is present, and nothing else.
   */
  function ToDocument(m: Metric): (doc: Document)
    ensures |doc| == if m.includeCurve.Some? then 2 else 1
    ensures doc[0] == (CLASS_NAME, VStr(m.className))
    ensures m.includeCurve.Some? ==> doc[1] == (INCLUDE_CURVE, VBool(m.includeCurve.value))
    ensures forall i :: 0 <= i < |doc| ==> doc[i].0 == CLASS_NAME || doc[i].0 == INCLUDE_CURVE
  {
    [(CLASS_NAME, VStr(m.className))]
      + match m.includeCurve
        case None => []
        case Some(b) => [(INCLUDE_CURVE, VBool(b))]
  }

  /** Writes the metric as one object to `builder`, and hands the builder back. */
  method ToXContent(m: Metric, builder: Builder) returns (r: Builder)
    modifies builder
    ensures r == builder
    ensures builder.tokens == old(builder.tokens) + AsObject(ToDocument(m))
  {
    builder.StartObject();
    builder.Field(CLASS_NAME, VStr(m.className));
    if m.includeCurve.Some? {
      builder.Field(INCLUDE_CURVE, VBool(m.includeCurve.value));
    }
    builder.EndObject();
    r := builder;
  }

  /** The type tag, whatever the fields hold. */
  function GetName(m: Metric): (r: string)
    ensures r == NAME
  {
    NAME
  }

  /**
   * Content equality against another object; `None` is null or an object of
   * another class. Equal exactly when both fields are equal.
   */
  function Equals(m: Metric, o: Option<Metric>): (r: bool)
    ensures r <==> o == Some(m)
  {
    match o
    case None => false
    case Some(that) => m.className == that.className && m.includeCurve == that.includeCurve
  }

  /**
   * The hash of the field pair. How the pair is mixed is library behaviour and
   * is a parameter here: whichever mixing is used, only the two fields count.
   */
  function HashCode(m: Metric, mix: (string, Option<bool>) -> int): int
  {
    mix(m.className, m.includeCurve)
  }

  // ----- Construction -----

  /** The convenience constructors set a concrete boolean, never leave the field absent, and differ from each other. */
  lemma ConvenienceConstructorsDiffer(c: string)
    ensures ForClass(Some(c)) == New(Some(c), Some(false))
    ensures ForClassWithCurve(Some(c)) == New(Some(c), Some(true))
    ensures ForClass(Some(c)) != New(Some(c), None)
    ensures !Equals(ForClass(Some(c)).value, Some(ForClassWithCurve(Some(c)).value))
  {
  }

  // ----- Serialisation -----

  /** `include_curve` appears in the written document exactly when the field is present, and as the last key. */
  lemma OmitWhenAbsent(m: Metric)
    ensures (exists i :: 0 <= i < |ToDocument(m)| && ToDocument(m)[i].0 == INCLUDE_CURVE) <==> m.includeCurve.Some?
    ensures Lookup(ToDocument(m), INCLUDE_CURVE) == if m.includeCurve.Some? then Some(VBool(m.includeCurve.value)) else None
    ensures m.includeCurve.Some? ==> ToDocument(m)[|ToDocument(m)| - 1].0 == INCLUDE_CURVE
  {
    var doc := ToDocument(m);
    LookupNone(doc, INCLUDE_CURVE);
    if m.includeCurve.Some? {
      assert doc[1].0 == INCLUDE_CURVE;
    }
  }

  // ----- Parsing -----

  /** The class name field, when present, is a string. */
  predicate ClassNameWellTyped(doc: Document)
  {
    match Lookup(doc, CLASS_NAME)
    case None => true
    case Some(v) => v.VStr?
  }

  /** The curve flag, when present, is a boolean. */
  predicate IncludeCurveWellTyped(doc: Document)
  {
    match Lookup(doc, INCLUDE_CURVE)
    case None => true
    case Some(v) => v.VBool?
  }

  /** With distinct keys, the walk lets every entry through exactly when both known fields are well typed. */
  lemma EntriesOkIff(doc: Document)
    requires DistinctKeys(doc)
    ensures (forall i :: 0 <= i < |doc| ==> EntryOk(FIELDS, LENIENT, doc[i]))
        <==> ClassNameWellTyped(doc) && IncludeCurveWellTyped(doc)
  {
    if forall i :: 0 <= i < |doc| ==> EntryOk(FIELDS, LENIENT, doc[i]) {
      if Lookup(doc, CLASS_NAME).Some? {
        LookupFound(doc, CLASS_NAME);
      }
      if Lookup(doc, INCLUDE_CURVE).Some? {
        LookupFound(doc, INCLUDE_CURVE);
      }
    }
    if ClassNameWellTyped(doc) && IncludeCurveWellTyped(doc) {
      forall i | 0 <= i < |doc| ensures EntryOk(FIELDS, LENIENT, doc[i]) {
        LookupDistinct(doc, i);
      }
    }
  }

  /**
   * Parsing a document with distinct keys succeeds exactly when `class_name`
   * is present as a string and `include_curve` is absent or a boolean; the
   * metric then holds those values, with an absent `include_curve` read as absent.
   */
  lemma ParseSucceedsIff(doc: Document)
    requires DistinctKeys(doc)
    ensures FromXContent(doc).Ok?
        <==> Lookup(doc, CLASS_NAME).Some? && ClassNameWellTyped(doc) && IncludeCurveWellTyped(doc)
    ensures FromXContent(doc).Ok? ==>
      FromXContent(doc).value
        == Metric(Lookup(doc, CLASS_NAME).value.s,
                  match Lookup(doc, INCLUDE_CURVE)
                  case None => None
                  case Some(v) => Some(v.b))
  {
    EntriesOkIff(doc);
    assert FIELDS[0].name == CLASS_NAME && FIELDS[1].name == INCLUDE_CURVE;
  }

  /** A document without `class_name` never parses; if nothing else is wrong, the error names the missing field. */
  lemma MissingClassNameFails(doc: Document)
    requires forall i :: 0 <= i < |doc| ==> doc[i].0 != CLASS_NAME
    ensures FromXContent(doc).Err?
    ensures (forall i :: 0 <= i < |doc| && doc[i].0 == INCLUDE_CURVE ==> doc[i].1.VBool?)
        ==> FromXContent(doc) == Err(MissingRequiredField(CLASS_NAME))
  {
    LookupNone(doc, CLASS_NAME);
    assert FIELDS[0].required && FIELDS[0].name == CLASS_NAME;
    CheckEntriesAll(FIELDS, LENIENT, doc);
    if forall i :: 0 <= i < |doc| && doc[i].0 == INCLUDE_CURVE ==> doc[i].1.VBool? {
      assert forall i :: 0 <= i < |doc| ==> EntryOk(FIELDS, LENIENT, doc[i]);
    }
  }

  /** A document that parses but has no `include_curve` gives an absent flag, never `false`. */
  lemma MissingIncludeCurveIsAbsent(doc: Document)
    requires forall i :: 0 <= i < |doc| ==> doc[i].0 != INCLUDE_CURVE
    requires FromXContent(doc).Ok?
    ensures FromXContent(doc).value.includeCurve == None
  {
    LookupNone(doc, INCLUDE_CURVE);
    assert FIELDS[1].name == INCLUDE_CURVE;
  }

  /**
   * A `class_name` that is not a string or an `include_curve` that is not a
   * boolean makes parsing fail with a type mismatch; the first such entry of
   * the document is the one reported.
   */
  lemma MistypedFieldFails(doc: Document, i: int)
    requires 0 <= i < |doc|
    requires (doc[i].0 == CLASS_NAME && !doc[i].1.VStr?) || (doc[i].0 == INCLUDE_CURVE && !doc[i].1.VBool?)
    ensures FromXContent(doc).Err? && FromXContent(doc).error.TypeMismatch?
    ensures (forall j :: 0 <= j < i ==> EntryOk(FIELDS, LENIENT, doc[j]))
        ==> FromXContent(doc) == Err(TypeMismatch(doc[i].0))
  {
    assert !EntryOk(FIELDS, LENIENT, doc[i]);
    var first :|
      && 0 <= first <= i && !EntryOk(FIELDS, LENIENT, doc[first])
      && forall j :: 0 <= j < first ==> EntryOk(FIELDS, LENIENT, doc[j]) by {
      FirstFailing(doc, i);
    }
    CheckEntriesFirst(FIELDS, LENIENT, doc, first);
    if forall j :: 0 <= j < i ==> EntryOk(FIELDS, LENIENT, doc[j]) {
      assert first == i;
    }
  }

  /** Among the entries up to `i`, one of which is refused, there is a first refused one. */
  lemma {:induction false} FirstFailing(doc: Document, i: int)
    requires 0 <= i < |doc| && !EntryOk(FIELDS, LENIENT, doc[i])
    ensures exists first ::
      && 0 <= first <= i && !EntryOk(FIELDS, LENIENT, doc[first])
      && forall j :: 0 <= j < first ==> EntryOk(FIELDS, LENIENT, doc[j])
  {
    if !forall j :: 0 <= j < i ==> EntryOk(FIELDS, LENIENT, doc[j]) {
      var j :| 0 <= j < i && !EntryOk(FIELDS, LENIENT, doc[j]);
      FirstFailing(doc, j);
    }
  }

  /** Fields other than `class_name` and `include_curve` are ignored wherever they stand. */
  lemma UnknownFieldsIgnored(pre: Document, post: Document, k: string, v: Value)
    requires k != CLASS_NAME && k != INCLUDE_CURVE
    ensures FromXContent(pre + [(k, v)] + post) == FromXContent(pre + post)
  {
    assert DeclFor(FIELDS, k).None?;
    LenientIgnoresUnknown(FIELDS, pre, post, k, v);
  }

  // ----- Round trips -----

  /** Every metric reads back from the document it writes. */
  lemma RoundTrip(m: Metric)
    ensures DistinctKeys(ToDocument(m))
    ensures FromXContent(ToDocument(m)) == Ok(m)
  {
    var doc := ToDocument(m);
    ParseSucceedsIff(doc);
    OmitWhenAbsent(m);
  }

  /** The tokens `ToXContent` writes read back as one object, and that object parses to the same metric. */
  lemma WireRoundTrip(m: Metric)
    ensures ReadObject(AsObject(ToDocument(m))) == Some(ToDocument(m))
    ensures FromXContent(ReadObject(AsObject(ToDocument(m))).value) == Ok(m)
  {
    ReadObjectOfAsObject(ToDocument(m));
    RoundTrip(m);
  }

  /** Parsing then writing keeps both known fields as they were and drops everything else. */
  lemma ParseThenWrite(doc: Document)
    requires DistinctKeys(doc) && FromXContent(doc).Ok?
    ensures Lookup(ToDocument(FromXContent(doc).value), CLASS_NAME) == Lookup(doc, CLASS_NAME)
    ensures Lookup(ToDocument(FromXContent(doc).value), INCLUDE_CURVE) == Lookup(doc, INCLUDE_CURVE)
  {
    ParseSucceedsIff(doc);
    OmitWhenAbsent(FromXContent(doc).value);
  }

  // ----- Equality, hashing, name -----

  /** Absent is a value of its own: it equals neither `true` nor `false`, and equality is by both fields. */
  lemma EqualityByContent(a: Metric, b: Metric)
    ensures Equals(a, Some(b)) <==> a.className == b.className && a.includeCurve == b.includeCurve
    ensures Equals(a, Some(b)) == Equals(b, Some(a))
    ensures Equals(a, Some(a)) && !Equals(a, None)
    ensures a.includeCurve.None? && b.includeCurve.Some? ==> !Equals(a, Some(b))
  {
  }

  /** Equal metrics hash alike, whatever the mixing. */
  lemma EqualsImpliesSameHash(a: Metric, b: Metric, mix: (string, Option<bool>) -> int)
    requires Equals(a, Some(b))
    ensures HashCode(a, mix) == HashCode(b, mix)
  {
  }

  /** The name does not depend on the fields. */
  lemma NameIsConstant(a: Metric, b: Metric)
    ensures GetName(a) == GetName(b) == NAME
  {
  }

  // ----- Worked documents -----

  lemma ParseExamples()
    ensures FromXContent([(CLASS_NAME, VStr("positive_class"))]) == Ok(Metric("positive_class", None))
    ensures FromXContent([(CLASS_NAME, VStr("positive_class")), (INCLUDE_CURVE, VBool(true))])
         == Ok(Metric("positive_class", Some(true)))
    ensures FromXContent([(CLASS_NAME, VStr("A")), ("extra_field", VOther)]) == Ok(Metric("A", None))
    ensures FromXContent([]) == Err(MissingRequiredField(CLASS_NAME))
  {
    RoundTrip(Metric("positive_class", None));
    assert ToDocument(Metric("positive_class", None)) == [(CLASS_NAME, VStr("positive_class"))];
    RoundTrip(Metric("positive_class", Some(true)));
    RoundTrip(Metric("A", None));
    UnknownFieldsIgnored([(CLASS_NAME, VStr("A"))], [], "extra_field", VOther);
    assert [(CLASS_NAME, VStr("A"))] + [("extra_field", VOther)] + [] == [(CLASS_NAME, VStr("A")), ("extra_field", VOther)];
  }

  lemma WriteExamples(mix: (string, Option<bool>) -> int)
    ensures ToDocument(Metric("positive_class", None)) == [(CLASS_NAME, VStr("positive_class"))]
    ensures ToDocument(ForClassWithCurve(Some("dog")).value) == [(CLASS_NAME, VStr("dog")), (INCLUDE_CURVE, VBool(true))]
    ensures Equals(ForClass(Some("cat")).value, Some(ForClass(Some("cat")).value))
    ensures HashCode(ForClass(Some("cat")).value, mix) == HashCode(ForClass(Some("cat")).value, mix)
  {
    EqualsImpliesSameHash(ForClass(Some("cat")).value, ForClass(Some("cat")).value, mix);
  }
}
