# AUC-ROC metric descriptor, modelled in Dafny

This project models `AucRocMetric`, the client-side descriptor of the AUC-ROC
(area under the receiver-operating-characteristic curve) evaluation metric for
classification. The descriptor is an immutable record with two fields:

- `className`: the class label to score. It is required, and a null value is refused.
- `includeCurve`: a boxed boolean with three states. It can be absent, `true` or `false`.

The descriptor is read from a document by a lenient, declaratively configured
parser. It is written to a document builder, compared by content, and carries
the fixed type tag `NAME`.

Files:

- `wrappers.dfy` (module `Wrappers`): `Option` (with `None` standing for Java's `null`) and `Result`.
- `xcontent.dfy` (module `XContent`): the document abstraction.
  - A document object is a sequence of `(key, Value)` entries, with `Value` one of `VStr`, `VBool` or `VOther`.
  - `Lookup` finds the first entry with a key.
  - `Builder` is a class whose methods append tokens (`BeginObject`, `FieldEntry`, `FinishObject`).
  - `ReadObject` reads such a token stream back as a document.
- `object_parser.dfy` (module `ObjectParser`): the declarative parser.
  - A field table holds `FieldDecl(name, kind, required)` entries.
  - A walker checks the entries in document order: a declared field must have its declared kind, and an undeclared field is refused only when the parser is strict.
  - It then binds one constructor argument per declaration, and a missing required field fails.
  - The `ConstructingParser` class holds the name, the leniency flag and the declarations registered by `DeclareString`/`DeclareBoolean`.
- `auc_roc_metric.dfy` (module `AucRocMetric`): the metric itself and the properties proved about it.

Two modelling choices:

- A null class name makes `Objects.requireNonNull` throw (line 71). This is modelled as the error `NullArgument`, with `None` standing for null at the constructor inputs.
- `forClass` sets `includeCurve` to a concrete `false` (line 60). The model keeps this apart from the absent value, and never folds absent into `false`.

## Model

| member | source | states |
|---|---|---|
| `AucRocMetric.New` | client/rest-high-level/src/main/java/org/elasticsearch/client/ml/dataframe/evaluation/classification/AucRocMetric.java:70-73 | fails with `NullArgument` exactly when the class name is null; otherwise keeps both arguments unchanged, so `includeCurve` may stay absent |
| `AucRocMetric.ForClass` | client/rest-high-level/src/main/java/org/elasticsearch/client/ml/dataframe/evaluation/classification/AucRocMetric.java:59-61 | null is refused; otherwise `includeCurve` is the concrete `Some(false)`, not absent |
| `AucRocMetric.ForClassWithCurve` | client/rest-high-level/src/main/java/org/elasticsearch/client/ml/dataframe/evaluation/classification/AucRocMetric.java:63-65 | null is refused; otherwise `includeCurve` is `Some(true)` |
| `AucRocMetric.ConvenienceConstructorsDiffer` | client/rest-high-level/src/main/java/org/elasticsearch/client/ml/dataframe/evaluation/classification/AucRocMetric.java:59-65 | `forClass(c)` is `(c, false)`, differs from `(c, absent)`, and is never equal to `forClassWithCurve(c)` |
| `AucRocMetric.BuildParser` | client/rest-high-level/src/main/java/org/elasticsearch/client/ml/dataframe/evaluation/classification/AucRocMetric.java:47-53 | the static set-up leaves a fresh parser named `NAME`, lenient, with `class_name` declared as a required string and then `include_curve` as an optional boolean |
| `AucRocMetric.ApplyParser` | client/rest-high-level/src/main/java/org/elasticsearch/client/ml/dataframe/evaluation/classification/AucRocMetric.java:55-57 | applying the parser so set up, then the constructor callback, gives exactly `FromXContent` |
| `ObjectParser.ConstructingParser.constructor` | client/rest-high-level/src/main/java/org/elasticsearch/client/ml/dataframe/evaluation/classification/AucRocMetric.java:47-48 | a new parser has the given name and leniency and no declarations |
| `ObjectParser.ConstructingParser.DeclareString` | client/rest-high-level/src/main/java/org/elasticsearch/client/ml/dataframe/evaluation/classification/AucRocMetric.java:51 | appends one string field declaration and changes nothing else |
| `ObjectParser.ConstructingParser.DeclareBoolean` | client/rest-high-level/src/main/java/org/elasticsearch/client/ml/dataframe/evaluation/classification/AucRocMetric.java:52 | appends one boolean field declaration and changes nothing else |
| `ObjectParser.ParseFields` | client/rest-high-level/src/main/java/org/elasticsearch/client/ml/dataframe/evaluation/classification/AucRocMetric.java:47-53 | parsing succeeds iff every entry is let through (declared fields well typed, undeclared ones only when lenient) and every required field is present; argument i is then the value found under declaration i's name |
| `ObjectParser.BindArgs` | client/rest-high-level/src/main/java/org/elasticsearch/client/ml/dataframe/evaluation/classification/AucRocMetric.java:51-52 | one argument per declaration in declaration order; fails with `MissingRequiredField` naming an absent required field, and only then |
| `ObjectParser.LenientIgnoresUnknown` | client/rest-high-level/src/main/java/org/elasticsearch/client/ml/dataframe/evaluation/classification/AucRocMetric.java:48 | with the leniency flag set, inserting an undeclared field anywhere leaves the parse result unchanged |
| `ObjectParser.StrictRejectsUnknown` | client/rest-high-level/src/main/java/org/elasticsearch/client/ml/dataframe/evaluation/classification/AucRocMetric.java:48 | with the flag cleared, any undeclared field makes parsing fail |
| `AucRocMetric.Construct` | client/rest-high-level/src/main/java/org/elasticsearch/client/ml/dataframe/evaluation/classification/AucRocMetric.java:48 | the constructor callback, with the casts `(String) args[0]` and `(Boolean) args[1]` (`AsString`, `AsBoolean`): succeeds exactly when the first argument is a string; the metric then carries that string, and the flag is the boolean argument or absent when the second argument is missing |
| `AucRocMetric.FromXContent` | client/rest-high-level/src/main/java/org/elasticsearch/client/ml/dataframe/evaluation/classification/AucRocMetric.java:55-57 | never fails with an unknown-field or null error (the parser is lenient and binds `class_name` first); on success the class name and flag are the ones found in the document. Its full characterisation is in `ParseSucceedsIff`, `MissingClassNameFails`, `MistypedFieldFails`, `UnknownFieldsIgnored` and `RoundTrip` |
| `ObjectParser.ConstructingParser.Apply` | client/rest-high-level/src/main/java/org/elasticsearch/client/ml/dataframe/evaluation/classification/AucRocMetric.java:56 | applying the parser object is `ParseFields` on its declarations and leniency; its contract is carried by `ParseFields` and by `AucRocMetric.ApplyParser` |
| `AucRocMetric.HashCode` | client/rest-high-level/src/main/java/org/elasticsearch/client/ml/dataframe/evaluation/classification/AucRocMetric.java:101-103 | the hash of the field pair under a mixing function left as a parameter; its contract (equal metrics hash alike) is `EqualsImpliesSameHash` |
| `AucRocMetric.ParseSucceedsIff` | client/rest-high-level/src/main/java/org/elasticsearch/client/ml/dataframe/evaluation/classification/AucRocMetric.java:47-57 | with distinct keys, parsing succeeds iff `class_name` is present as a string and `include_curve` is absent or boolean; the metric then carries those values, and absent stays absent |
| `AucRocMetric.MissingClassNameFails` | client/rest-high-level/src/main/java/org/elasticsearch/client/ml/dataframe/evaluation/classification/AucRocMetric.java:51 | no `class_name` entry means the parse fails; if `include_curve` is well typed, the error is `MissingRequiredField("class_name")` |
| `AucRocMetric.MissingIncludeCurveIsAbsent` | client/rest-high-level/src/main/java/org/elasticsearch/client/ml/dataframe/evaluation/classification/AucRocMetric.java:52 | a successful parse of a document without `include_curve` gives `includeCurve = None`, never `false` |
| `AucRocMetric.MistypedFieldFails` | client/rest-high-level/src/main/java/org/elasticsearch/client/ml/dataframe/evaluation/classification/AucRocMetric.java:51-52 | a non-string `class_name` or non-boolean `include_curve` makes the parse fail with `TypeMismatch`, naming the first ill-typed entry of the document |
| `AucRocMetric.UnknownFieldsIgnored` | client/rest-high-level/src/main/java/org/elasticsearch/client/ml/dataframe/evaluation/classification/AucRocMetric.java:48 | any key other than `class_name` and `include_curve`, wherever it stands, does not change the parse result |
| `AucRocMetric.ToDocument` | client/rest-high-level/src/main/java/org/elasticsearch/client/ml/dataframe/evaluation/classification/AucRocMetric.java:77-82 | the written entries are `class_name` first, then `include_curve` as second and last entry exactly when present, and no other key |
| `AucRocMetric.ToXContent` | client/rest-high-level/src/main/java/org/elasticsearch/client/ml/dataframe/evaluation/classification/AucRocMetric.java:76-84 | appends to the builder exactly one object holding `ToDocument(m)`, and returns the same builder |
| `AucRocMetric.OmitWhenAbsent` | client/rest-high-level/src/main/java/org/elasticsearch/client/ml/dataframe/evaluation/classification/AucRocMetric.java:79-81 | `include_curve` occurs in the written document iff the field is present, carries its value, and is then the last key |
| `AucRocMetric.RoundTrip` | client/rest-high-level/src/main/java/org/elasticsearch/client/ml/dataframe/evaluation/classification/AucRocMetric.java:44-84 | for every metric, the written document has distinct keys and parses back to the same metric |
| `AucRocMetric.WireRoundTrip` | client/rest-high-level/src/main/java/org/elasticsearch/client/ml/dataframe/evaluation/classification/AucRocMetric.java:76-84 | the tokens `toXContent` writes read back as one object, and that object parses back to the same metric |
| `AucRocMetric.ParseThenWrite` | client/rest-high-level/src/main/java/org/elasticsearch/client/ml/dataframe/evaluation/classification/AucRocMetric.java:47-84 | parsing then writing keeps `class_name` and `include_curve` as they were (absent stays absent); that no other key is written is part of `ToDocument`'s contract |
| `AucRocMetric.ParseExamples` | client/rest-high-level/src/main/java/org/elasticsearch/client/ml/dataframe/evaluation/classification/AucRocMetric.java:47-57 | worked documents: only `class_name`, both fields, an extra field, and the empty object (which fails with `MissingRequiredField`) |
| `AucRocMetric.WriteExamples` | client/rest-high-level/src/main/java/org/elasticsearch/client/ml/dataframe/evaluation/classification/AucRocMetric.java:59-84 | worked writes: an absent flag writes only `class_name`; `forClassWithCurve("dog")` writes both; two `forClass("cat")` are equal and hash alike |
| `AucRocMetric.GetName` | client/rest-high-level/src/main/java/org/elasticsearch/client/ml/dataframe/evaluation/classification/AucRocMetric.java:87-89 | returns the constant `NAME` |
| `AucRocMetric.NameIsConstant` | client/rest-high-level/src/main/java/org/elasticsearch/client/ml/dataframe/evaluation/classification/AucRocMetric.java:42 | the name is the same for every metric, whatever its fields |
| `AucRocMetric.Equals` | client/rest-high-level/src/main/java/org/elasticsearch/client/ml/dataframe/evaluation/classification/AucRocMetric.java:92-98 | true exactly when the other object is a metric with the same content; null or another class gives false |
| `AucRocMetric.EqualityByContent` | client/rest-high-level/src/main/java/org/elasticsearch/client/ml/dataframe/evaluation/classification/AucRocMetric.java:96-97 | equal iff both fields are equal; symmetric and reflexive; absent `includeCurve` is never equal to a present one |
| `AucRocMetric.EqualsImpliesSameHash` | client/rest-high-level/src/main/java/org/elasticsearch/client/ml/dataframe/evaluation/classification/AucRocMetric.java:101-103 | equal metrics have equal hashes, whatever function mixes the field pair |
| `XContent.Builder.StartObject` | client/rest-high-level/src/main/java/org/elasticsearch/client/ml/dataframe/evaluation/classification/AucRocMetric.java:77 | appends the start-of-object token |
| `XContent.Builder.Field` | client/rest-high-level/src/main/java/org/elasticsearch/client/ml/dataframe/evaluation/classification/AucRocMetric.java:78-80 | appends one field token |
| `XContent.Builder.EndObject` | client/rest-high-level/src/main/java/org/elasticsearch/client/ml/dataframe/evaluation/classification/AucRocMetric.java:82 | appends the end-of-object token |
| `XContent.ReadObjectOfAsObject` | client/rest-high-level/src/main/java/org/elasticsearch/client/ml/dataframe/evaluation/classification/AucRocMetric.java:77-82 | a document written as one object reads back as the same document |

## Left out

- The literal value of `NAME`. It is defined as `AucRocResult.NAME`, and `AucRocResult` is not part of this model. The model uses `"auc_roc"`. Every property proved holds for any constant.
- `IOException` from the builder (line 76). The builder is an in-memory token sink that cannot fail, so an I/O fault and its propagation are not modelled.
- The `params` argument of `toXContent`. The source never reads it.
- The numeric value of `Objects.hash` (line 102). `HashCode` takes the field-pair mixing function as a parameter. Only consistency with equality is proved.
- The identity shortcut `this == o` in `equals` (line 93). Dafny's datatype values have no identity, and the shortcut agrees with content equality anyway.
- Duplicate keys in a document. The document library decides how they are handled, which is not shown. The walker checks the kind of every occurrence, and `Lookup` takes the first one. That choice is the model's own, so the lemmas that depend on it require `DistinctKeys`.
- Library internals: JSON byte encoding and escaping, token streaming, deprecated or alternate field names, and nested objects. Also left out is the library's coercion of values, such as a string `"true"` accepted for a boolean field or an explicit `null` value. Values are abstracted to `VStr`, `VBool` and `VOther`.
- The `ClassCastException` the constructor callback could raise (line 48). It cannot happen once the field kinds are checked. `AsString`/`AsBoolean` then map anything but the expected kind to null.
- The thread safety of the shared static `PARSER`. This is a concurrency concern. `BuildParser` models its one-time set-up, and parsing itself reads the parser without changing it.
- `AucRocResult`, the `EvaluationMetric` interface and the metric-family registry. They are collaborators, not part of this model. No AUC or ROC number is computed here.
