/**
 * The structured-document layer the metric reads from and writes to,
 * reduced to what the metric relies on: a document is a finite sequence of
 * key/value entries, and a builder is a sink that records the tokens it is
 * given (start of object, one field, end of object).
 */
module XContent {
  import opened Wrappers

  /** A field value as the document reader reports it. */
  datatype Value = VStr(s: string) | VBool(b: bool) | VOther

  /** One object of the document: its entries in the order they are read. */
  type Document = seq<(string, Value)>

  /** No key occurs twice in the object. */
  predicate DistinctKeys(doc: Document)
  {
    forall i, j :: 0 <= i < j < |doc| ==> doc[i].0 != doc[j].0
  }

  /** The value of the first entry with key `key`, if there is one. */
  function Lookup(doc: Document, key: string): Option<Value>
  {
    if doc == [] then None
    else if doc[0].0 == key then Some(doc[0].1)
    else Lookup(doc[1..], key)
  }

  /** A key is found exactly when some entry carries it. */
  lemma {:induction false} LookupNone(doc: Document, key: string)
    ensures Lookup(doc, key).None? <==> forall i :: 0 <= i < |doc| ==> doc[i].0 != key
  {
    if doc != [] && doc[0].0 != key {
      LookupNone(doc[1..], key);
      assert forall i :: 1 <= i < |doc| ==> doc[i] == doc[1..][i - 1];
    }
  }

  /** What `Lookup` finds is an entry of the document. */
  lemma {:induction false} LookupFound(doc: Document, key: string)
    requires Lookup(doc, key).Some?
    ensures exists i :: 0 <= i < |doc| && doc[i] == (key, Lookup(doc, key).value)
  {
    if doc[0].0 != key {
      LookupFound(doc[1..], key);
      var i :| 0 <= i < |doc[1..]| && doc[1..][i] == (key, Lookup(doc[1..], key).value);
      assert doc[i + 1] == doc[1..][i];
    }
  }

  /** With distinct keys every entry is the one `Lookup` finds for its key. */
  lemma {:induction false} LookupDistinct(doc: Document, i: int)
    requires DistinctKeys(doc) && 0 <= i < |doc|
    ensures Lookup(doc, doc[i].0) == Some(doc[i].1)
  {
    if i > 0 {
      assert doc[0].0 != doc[i].0;
      assert DistinctKeys(doc[1..]) by {
        forall a, b | 0 <= a < b < |doc[1..]| ensures doc[1..][a].0 != doc[1..][b].0 {
          assert doc[1..][a] == doc[a + 1] && doc[1..][b] == doc[b + 1];
        }
      }
      LookupDistinct(doc[1..], i - 1);
      assert doc[1..][i - 1] == doc[i];
    }
  }

  /** Looking up in a concatenation searches the first part, then the second. */
  lemma {:induction false} LookupConcat(a: Document, b: Document, key: string)
    ensures Lookup(a + b, key) == if Lookup(a, key).Some? then Lookup(a, key) else Lookup(b, key)
  {
    if a != [] {
      assert (a + b)[0] == a[0];
      assert (a + b)[1..] == a[1..] + b;
      LookupConcat(a[1..], b, key);
    } else {
      assert a + b == b;
    }
  }

  /** The tokens a document builder records. */
  datatype Token = BeginObject | FieldEntry(key: string, value: Value) | FinishObject

  /** The field tokens of the entries of `doc`, in order. */
  function Entries(doc: Document): (ts: seq<Token>)
    ensures |ts| == |doc|
    ensures forall i :: 0 <= i < |doc| ==> ts[i] == FieldEntry(doc[i].0, doc[i].1)
  {
    if doc == [] then [] else [FieldEntry(doc[0].0, doc[0].1)] + Entries(doc[1..])
  }

  /** The token stream of `doc` written as one object. */
  function AsObject(doc: Document): seq<Token>
  {
    [BeginObject] + Entries(doc) + [FinishObject]
  }

  /**
   * Reads field tokens up to the closing token, which must be the last one.
   * Nested objects do not occur in the metric's documents and are refused.
   */
  function ReadEntries(ts: seq<Token>): Option<Document>
  {
    if ts == [] then None
    else match ts[0]
      case FinishObject => if |ts| == 1 then Some([]) else None
      case BeginObject => None
      case FieldEntry(k, v) =>
        match ReadEntries(ts[1..])
        case None => None
        case Some(rest) => Some([(k, v)] + rest)
  }

  /** Reads a token stream that holds exactly one object of fields. */
  function ReadObject(ts: seq<Token>): Option<Document>
  {
    if |ts| > 0 && ts[0] == BeginObject then ReadEntries(ts[1..]) else None
  }

  lemma {:induction false} ReadEntriesOfEntries(doc: Document)
    ensures ReadEntries(Entries(doc) + [FinishObject]) == Some(doc)
  {
    if doc != [] {
      var ts := Entries(doc) + [FinishObject];
      assert ts[0] == FieldEntry(doc[0].0, doc[0].1);
      assert ts[1..] == Entries(doc[1..]) + [FinishObject];
      ReadEntriesOfEntries(doc[1..]);
      assert [(doc[0].0, doc[0].1)] + doc[1..] == doc;
    } else {
      assert Entries(doc) + [FinishObject] == [FinishObject];
    }
  }

  /** Reading back what was written as an object yields the same document. */
  lemma ReadObjectOfAsObject(doc: Document)
    ensures ReadObject(AsObject(doc)) == Some(doc)
  {
    assert AsObject(doc)[1..] == Entries(doc) + [FinishObject];
    ReadEntriesOfEntries(doc);
  }

  /** A document builder: a sink that records every token it is given. */
  class Builder {
    var tokens: seq<Token>

    constructor ()
      ensures tokens == []
    {
      tokens := [];
    }

    method StartObject()
      modifies this
      ensures tokens == old(tokens) + [BeginObject]
    {
      tokens := tokens + [BeginObject];
    }

    method Field(key: string, value: Value)
      modifies this
      ensures tokens == old(tokens) + [FieldEntry(key, value)]
    {
      tokens := tokens + [FieldEntry(key, value)];
    }

    method EndObject()
      modifies this
      ensures tokens == old(tokens) + [FinishObject]
    {
      tokens := tokens + [FinishObject];
    }
  }
}
