/**
 * A declarative object parser in the style of a constructing object parser:
 * fields are declared one by one with their name, their kind and whether the
 * constructor needs them; parsing walks the document's entries in order,
 * checking each declared field's kind (and, unless the parser is lenient,
 * refusing undeclared fields), then binds one constructor argument per
 * declaration, in declaration order.
 */
module ObjectParser {
  import opened Wrappers
  import opened XContent

  /** The value kinds a field can be declared with. */
  datatype FieldKind = StringField | BooleanField

  /** One declared field: `required` is a constructor argument, otherwise an optional one. */
  datatype FieldDecl = FieldDecl(name: string, kind: FieldKind, required: bool)

  /** Errors while parsing an object or constructing the value it describes. */
  datatype Error =
    | MissingRequiredField(field: string)
    | TypeMismatch(field: string)
    | UnknownField(field: string)
    | NullArgument

  /** The constructor arguments, one per declaration; `None` is a field that was absent. */
  type Args = seq<Option<Value>>

  predicate HasKind(v: Value, kind: FieldKind)
  {
    match kind
    case StringField => v.VStr?
    case BooleanField => v.VBool?
  }

  /** The first declaration of field `key`, if any. */
  function DeclFor(decls: seq<FieldDecl>, key: string): (r: Option<FieldDecl>)
    ensures r.Some? ==> r.value in decls && r.value.name == key
    ensures r.None? <==> forall d :: d in decls ==> d.name != key
  {
    if decls == [] then None
    else if decls[0].name == key then Some(decls[0])
    else DeclFor(decls[1..], key)
  }

  /** An entry the walker lets through: a declared field of its declared kind, or an undeclared one when lenient. */
  predicate EntryOk(decls: seq<FieldDecl>, lenient: bool, entry: (string, Value))
  {
    match DeclFor(decls, entry.0)
    case None => lenient
    case Some(d) => HasKind(entry.1, d.kind)
  }

  /** The first problem met while walking the entries of `doc` in order, if any. */
  function CheckEntries(decls: seq<FieldDecl>, lenient: bool, doc: Document): (r: Option<Error>)
    ensures r.Some? ==> r.value.TypeMismatch? || (!lenient && r.value.UnknownField?)
  {
    if doc == [] then None
    else match DeclFor(decls, doc[0].0)
      case None =>
        if lenient then CheckEntries(decls, lenient, doc[1..]) else Some(UnknownField(doc[0].0))
      case Some(d) =>
        if HasKind(doc[0].1, d.kind) then CheckEntries(decls, lenient, doc[1..])
        else Some(TypeMismatch(d.name))
  }

  /** The walk finds no problem exactly when every entry is let through. */
  lemma {:induction false} CheckEntriesAll(decls: seq<FieldDecl>, lenient: bool, doc: Document)
    ensures CheckEntries(decls, lenient, doc).None?
        <==> forall i :: 0 <= i < |doc| ==> EntryOk(decls, lenient, doc[i])
  {
    if doc != [] {
      CheckEntriesAll(decls, lenient, doc[1..]);
      assert forall i :: 1 <= i < |doc| ==> doc[i] == doc[1..][i - 1];
    }
  }

  /**
   * The problem the walk reports: a type mismatch on the first ill-typed declared
   * field, or an undeclared field of a strict parser, whichever comes first.
   */
  lemma {:induction false} CheckEntriesFirst(decls: seq<FieldDecl>, lenient: bool, doc: Document, i: int)
    requires 0 <= i < |doc| && !EntryOk(decls, lenient, doc[i])
    requires forall j :: 0 <= j < i ==> EntryOk(decls, lenient, doc[j])
    ensures CheckEntries(decls, lenient, doc)
         == if DeclFor(decls, doc[i].0).Some? then Some(TypeMismatch(doc[i].0))
            else Some(UnknownField(doc[i].0))
  {
    if i > 0 {
      assert EntryOk(decls, lenient, doc[0]);
      assert forall j :: 0 <= j < i - 1 ==> doc[1..][j] == doc[j + 1];
      CheckEntriesFirst(decls, lenient, doc[1..], i - 1);
      assert doc[1..][i - 1] == doc[i];
    }
  }

  /** Walking a concatenation reports the first part's problem, else the second part's. */
  lemma {:induction false} CheckEntriesConcat(decls: seq<FieldDecl>, lenient: bool, a: Document, b: Document)
    ensures CheckEntries(decls, lenient, a + b)
         == if CheckEntries(decls, lenient, a).Some? then CheckEntries(decls, lenient, a)
            else CheckEntries(decls, lenient, b)
  {
    if a != [] {
      assert (a + b)[0] == a[0];
      assert (a + b)[1..] == a[1..] + b;
      CheckEntriesConcat(decls, lenient, a[1..], b);
    } else {
      assert a + b == b;
    }
  }

  /** One argument per declaration, in declaration order; a missing required field fails. */
  function BindArgs(decls: seq<FieldDecl>, doc: Document): (r: Result<Args, Error>)
    ensures r.Ok? <==> forall i :: 0 <= i < |decls| && decls[i].required ==> Lookup(doc, decls[i].name).Some?
    ensures r.Ok? ==> |r.value| == |decls|
    ensures r.Ok? ==> forall i :: 0 <= i < |decls| ==> r.value[i] == Lookup(doc, decls[i].name)
    ensures r.Err? ==> exists i :: 0 <= i < |decls| && decls[i].required
                         && Lookup(doc, decls[i].name).None? && r.error == MissingRequiredField(decls[i].name)
  {
    if decls == [] then Ok([])
    else
      var v := Lookup(doc, decls[0].name);
      if v.None? && decls[0].required then Err(MissingRequiredField(decls[0].name))
      else
        var rest := BindArgs(decls[1..], doc);
        assert forall i :: 1 <= i < |decls| ==> decls[i] == decls[1..][i - 1];
        match rest
        case Err(e) => Err(e)
        case Ok(args) => Ok([v] + args)
  }

  /**
   * Parses one object against the declarations. It succeeds exactly when every
   * entry is let through and every required field is present, and then gives,
   * for each declaration, the value found under its name.
   */
  function ParseFields(decls: seq<FieldDecl>, lenient: bool, doc: Document): (r: Result<Args, Error>)
    ensures r.Ok? <==>
      && (forall i :: 0 <= i < |doc| ==> EntryOk(decls, lenient, doc[i]))
      && (forall i :: 0 <= i < |decls| && decls[i].required ==> Lookup(doc, decls[i].name).Some?)
    ensures r.Ok? ==>
      && |r.value| == |decls|
      && forall i :: 0 <= i < |decls| ==> r.value[i] == Lookup(doc, decls[i].name)
  {
    CheckEntriesAll(decls, lenient, doc);
    match CheckEntries(decls, lenient, doc)
    case Some(e) => Err(e)
    case None => BindArgs(decls, doc)
  }

  /** The bound arguments depend only on what `Lookup` finds for the declared names. */
  lemma {:induction false} BindArgsSameLookups(decls: seq<FieldDecl>, d1: Document, d2: Document)
    requires forall d :: d in decls ==> Lookup(d1, d.name) == Lookup(d2, d.name)
    ensures BindArgs(decls, d1) == BindArgs(decls, d2)
  {
    if decls != [] {
      assert decls[0] in decls;
      BindArgsSameLookups(decls[1..], d1, d2);
    }
  }

  /** A lenient parser ignores an undeclared field wherever it stands. */
  lemma LenientIgnoresUnknown(decls: seq<FieldDecl>, pre: Document, post: Document, k: string, v: Value)
    requires DeclFor(decls, k).None?
    ensures ParseFields(decls, true, pre + [(k, v)] + post) == ParseFields(decls, true, pre + post)
  {
    var with, without := pre + [(k, v)] + post, pre + post;
    assert with == pre + ([(k, v)] + post);
    CheckEntriesConcat(decls, true, pre, [(k, v)] + post);
    CheckEntriesConcat(decls, true, pre, post);
    assert ([(k, v)] + post)[1..] == post;
    assert CheckEntries(decls, true, with) == CheckEntries(decls, true, without);
    forall d | d in decls
      ensures Lookup(with, d.name) == Lookup(without, d.name)
    {
      LookupConcat(pre, [(k, v)] + post, d.name);
      LookupConcat(pre, post, d.name);
    }
    BindArgsSameLookups(decls, with, without);
  }

  /** A strict parser refuses an undeclared field wherever it stands. */
  lemma StrictRejectsUnknown(decls: seq<FieldDecl>, pre: Document, post: Document, k: string, v: Value)
    requires DeclFor(decls, k).None?
    ensures ParseFields(decls, false, pre + [(k, v)] + post).Err?
  {
    var doc := pre + [(k, v)] + post;
    assert doc[|pre|] == (k, v);
    assert !EntryOk(decls, false, doc[|pre|]);
  }

  /**
   * The parser object: a name, a leniency flag and the field declarations
   * registered on it, one call at a time.
   */
  class ConstructingParser {
    const name: string
    const lenient: bool
    var decls: seq<FieldDecl>

    constructor (name: string, lenient: bool)
      ensures this.name == name && this.lenient == lenient && decls == []
    {
      this.name := name;
      this.lenient := lenient;
      decls := [];
    }

    /** Declares a string field, as a constructor argument when `required`, else an optional one. */
    method DeclareString(required: bool, field: string)
      modifies this
      ensures decls == old(decls) + [FieldDecl(field, StringField, required)]
    {
      decls := decls + [FieldDecl(field, StringField, required)];
    }

    /** Declares a boolean field, as a constructor argument when `required`, else an optional one. */
    method DeclareBoolean(required: bool, field: string)
      modifies this
      ensures decls == old(decls) + [FieldDecl(field, BooleanField, required)]
    {
      decls := decls + [FieldDecl(field, BooleanField, required)];
    }

    /** Parses one object with the declarations registered so far. */
    function Apply(doc: Document): Result<Args, Error>
      reads this
    {
      ParseFields(decls, lenient, doc)
    }
  }
}
