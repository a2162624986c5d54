/**
 * The meaning of the index-specification builder `IndexSpec`
 * (src/mongo/client/index_spec.h) as values: the state it accumulates, what
 * each of its chaining calls does to that state, and what a chain of calls
 * does. The class in IndexSpecClass is proved against these functions.
 */
module IndexSpecModel {

  import opened Wrappers
  import opened Bson

  /** The symbolic index types (`IndexSpec::IndexType`). */
  datatype IndexType =
    | Ascending
    | Descending
    | Text
    | Geo2D
    | GeoHaystack
    | Geo2DSphere
    | Hashed

  /** `kIndexValAscending` and `kIndexValDescending`. */
  const IndexValAscending: int32 := 1
  const IndexValDescending: int32 := -1

  /**
   * The string values of the other index types. The header declares them
   * without their text; these are the index type names the server documents.
   */
  const IndexValText := "text"
  const IndexValGeo2D := "2d"
  const IndexValGeoHaystack := "geoHaystack"
  const IndexValGeo2DSphere := "2dsphere"
  const IndexValHashed := "hashed"

  /** The value recorded in the key document for an index type. */
  function Encode(t: IndexType): (v: Value)
    ensures v.Int32? <==> t == Ascending || t == Descending
    ensures v.Int32? ==> v.i == 1 || v.i == -1
    ensures v.Str? <==> !v.Int32?
  {
    match t
    case Ascending => Int32(IndexValAscending)
    case Descending => Int32(IndexValDescending)
    case Text => Str(IndexValText)
    case Geo2D => Str(IndexValGeo2D)
    case GeoHaystack => Str(IndexValGeoHaystack)
    case Geo2DSphere => Str(IndexValGeo2DSphere)
    case Hashed => Str(IndexValHashed)
  }

  /** `IndexSpec::KeyVector`: (field, type) pairs in order. */
  type KeyVector = seq<(string, IndexType)>

  /** The key elements a key vector stands for, pair by pair. */
  function KeyElements(kv: KeyVector): (es: Document)
    ensures |es| == |kv|
    ensures forall i :: 0 <= i < |kv| ==> es[i] == Element(kv[i].0, Encode(kv[i].1))
  {
    seq(|kv|, i requires 0 <= i < |kv| => Element(kv[i].0, Encode(kv[i].1)))
  }

  /**
   * The named option setters, one constructor per setter. `dropDuplicates` and
   * `dropDuplicatesDeprecated` set the same option and share `DropDuplicates`.
   */
  datatype OptionSetter =
    | Background(background: bool)
    | Unique(unique: bool)
    | DropDuplicates(dropDuplicates: bool)
    | Sparse(sparse: bool)
    | ExpireAfterSeconds(seconds: int32)
    | Version(version: int32)
    | TextWeights(weights: Document)
    | TextDefaultLanguage(language: string)
    | TextLanguageOverride(languageField: string)
    | TextIndexVersion(textVersion: int32)
    | Geo2DSphereIndexVersion(sphereVersion: int32)
    | Geo2DBits(precision: int32)
    | Geo2DMin(min: Double)
    | Geo2DMax(max: Double)
    | GeoHaystackBucketSize(bucketSize: Double)

  /**
   * The option element a named setter appends. The header names the setters
   * but not the option fields; these are the server's index option names.
   */
  function OptionElement(o: OptionSetter): Element
  {
    match o
    case Background(v) => Element("background", Bool(v))
    case Unique(v) => Element("unique", Bool(v))
    case DropDuplicates(v) => Element("dropDups", Bool(v))
    case Sparse(v) => Element("sparse", Bool(v))
    case ExpireAfterSeconds(v) => Element("expireAfterSeconds", Int32(v))
    case Version(v) => Element("v", Int32(v))
    case TextWeights(v) => Element("weights", Object(v))
    case TextDefaultLanguage(v) => Element("default_language", Str(v))
    case TextLanguageOverride(v) => Element("language_override", Str(v))
    case TextIndexVersion(v) => Element("textIndexVersion", Int32(v))
    case Geo2DSphereIndexVersion(v) => Element("2dsphereIndexVersion", Int32(v))
    case Geo2DBits(v) => Element("bits", Int32(v))
    case Geo2DMin(v) => Element("min", Float64(v))
    case Geo2DMax(v) => Element("max", Float64(v))
    case GeoHaystackBucketSize(v) => Element("bucketSize", Float64(v))
  }

  /** What a call reports: success, or the error it raises. */
  datatype Outcome =
    | Ok
    | DuplicateKey(key: string)
    | DuplicateOption(option: string)

  /**
   * The builder's state: the key document, the option document, and the
   * explicit name if `name(s)` was called (`_dynamicName` is false exactly
   * when `explicitName` is present).
   */
  datatype SpecState = SpecState(keys: Document, options: Document, explicitName: Option<string>)

  /** A freshly constructed builder. */
  const Empty := SpecState([], [], None)

  /** The invariant every reachable state keeps. */
  predicate WellFormed(s: SpecState)
  {
    UniqueFields(s.keys) && UniqueFields(s.options)
  }

  /** The result of appending to a document with the duplicate check. */
  datatype Appended = Appended(doc: Document, duplicate: Option<string>)

  /**
   * One checked append: an element whose field is already present is refused
   * and the document is left as it was.
   */
  function AddOne(d: Document, e: Element): (r: Appended)
    ensures r.duplicate.None? <==> !HasField(d, e.field)
    ensures r.duplicate.None? ==> r.doc == d + [e]
    ensures r.duplicate.Some? ==> r == Appended(d, Some(e.field))
    ensures UniqueFields(d) ==> UniqueFields(r.doc)
  {
    if HasField(d, e.field) then Appended(d, Some(e.field)) else Appended(d + [e], None)
  }

  /**
   * Checked appends of `es` one after another, stopping at the first refusal;
   * what was appended before the refusal stays.
   */
  function AddAll(d: Document, es: Document): (r: Appended)
    decreases |es|
    ensures d <= r.doc <= d + es
    ensures r.duplicate.None? ==> r.doc == d + es
    ensures r.duplicate.Some? ==>
              && r.doc < d + es
              && r.duplicate.value == (d + es)[|r.doc|].field
              && HasField(r.doc, r.duplicate.value)
    ensures UniqueFields(d) ==> UniqueFields(r.doc)
  {
    if es == [] then Appended(d, None)
    else
      var init := es[..|es| - 1];
      assert d + es == (d + init) + [es[|es| - 1]];
      var prev := AddAll(d, init);
      if prev.duplicate.Some? then prev else AddOne(prev.doc, es[|es| - 1])
  }

  /** Adding keys: checked appends to the key document. */
  function WithKeys(s: SpecState, es: Document): (SpecState, Outcome)
  {
    var a := AddAll(s.keys, es);
    (s.(keys := a.doc), if a.duplicate.Some? then DuplicateKey(a.duplicate.value) else Ok)
  }

  /** Adding options: checked appends to the option document. */
  function WithOptions(s: SpecState, es: Document): (SpecState, Outcome)
  {
    var a := AddAll(s.options, es);
    (s.(options := a.doc), if a.duplicate.Some? then DuplicateOption(a.duplicate.value) else Ok)
  }

  /** The chaining calls of `IndexSpec` that change its state. */
  datatype Call =
    | AddKey(field: string, indexType: IndexType)
    | AddKeyElement(key: Element)
    | AddKeys(pairs: KeyVector)
    | AddKeysFrom(keyDoc: Document)
    | SetOption(setter: OptionSetter)
    | AddOption(option: Element)
    | AddOptions(optionDoc: Document)
    | SetName(name: string)

  /** The key elements a call tries to append. */
  function CallKeys(c: Call): Document
  {
    match c
    case AddKey(f, t) => [Element(f, Encode(t))]
    case AddKeyElement(e) => [e]
    case AddKeys(kv) => KeyElements(kv)
    case AddKeysFrom(d) => d
    case _ => []
  }

  /** The option elements a call tries to append. */
  function CallOptions(c: Call): Document
  {
    match c
    case SetOption(o) => [OptionElement(o)]
    case AddOption(e) => [e]
    case AddOptions(d) => d
    case _ => []
  }

  /**
   * One call. Key calls touch only the keys, option calls only the options,
   * `name(s)` only the name; a call either appends everything it carries or
   * stops at an element whose field is already present and reports it.
   */
  function Apply(s: SpecState, c: Call): (SpecState, Outcome)
  {
    match c
    case AddKey(_, _) => WithKeys(s, CallKeys(c))
    case AddKeyElement(_) => WithKeys(s, CallKeys(c))
    case AddKeys(_) => WithKeys(s, CallKeys(c))
    case AddKeysFrom(_) => WithKeys(s, CallKeys(c))
    case SetOption(_) => WithOptions(s, CallOptions(c))
    case AddOption(_) => WithOptions(s, CallOptions(c))
    case AddOptions(_) => WithOptions(s, CallOptions(c))
    case SetName(n) => (s.(explicitName := Some(n)), Ok)
  }

  /**
   * A fluent chain `spec.c0(..).c1(..)...`: the calls in order, the chain
   * abandoned at the first call that raises.
   */
  function Chain(s: SpecState, cs: seq<Call>): (SpecState, Outcome)
    decreases |cs|
  {
    if cs == [] then (s, Ok)
    else
      var r := Apply(s, cs[0]);
      if r.1 != Ok then r else Chain(r.0, cs[1..])
  }

  /**
   * `name()`: the explicit name if one was set, otherwise the name the
   * auto-naming rule `autoName` gives the current keys.
   */
  function CurrentName(s: SpecState, autoName: Document -> string): string
  {
    match s.explicitName
    case Some(n) => n
    case None => autoName(s.keys)
  }

  /** What `toBSON()` captures: the keys and the options, in insertion order. */
  datatype IndexDescription = IndexDescription(key: Document, options: Document)

  function Describe(s: SpecState): IndexDescription
  {
    IndexDescription(s.keys, s.options)
  }

  /** Once an append has been refused, appending more elements changes nothing. */
  lemma {:induction false} AddAllStopsAtRefusal(d: Document, es: Document, k: nat)
    requires k <= |es|
    requires AddAll(d, es[..k]).duplicate.Some?
    ensures AddAll(d, es) == AddAll(d, es[..k])
    decreases |es| - k
  {
    if k < |es| {
      assert es[..k + 1][..k] == es[..k];
      AddAllStopsAtRefusal(d, es, k + 1);
    } else {
      assert es[..k] == es;
    }
  }

  /** Appending one more element after a successful run is one more checked append. */
  lemma AddAllSnoc(d: Document, es: Document, e: Element)
    ensures AddAll(d, es + [e]) ==
              var prev := AddAll(d, es);
              if prev.duplicate.Some? then prev else AddOne(prev.doc, e)
  {
    assert (es + [e])[..|es|] == es;
  }

  /**
   * One step of a bulk append that has gone well so far: the next checked
   * append either extends the run or ends the whole bulk append.
   */
  lemma AddAllStep(d: Document, es: Document, i: nat)
    requires i < |es|
    requires AddAll(d, es[..i]).duplicate.None?
    ensures var next := AddOne(AddAll(d, es[..i]).doc, es[i]);
            && (next.duplicate.None? ==> AddAll(d, es[..i + 1]) == next)
            && (next.duplicate.Some? ==> AddAll(d, es) == next)
  {
    assert es[..i + 1] == es[..i] + [es[i]];
    AddAllSnoc(d, es[..i], es[i]);
    if AddAll(d, es[..i + 1]).duplicate.Some? {
      AddAllStopsAtRefusal(d, es, i + 1);
    }
  }

  /** A bulk append of one element is the single checked append. */
  lemma AddAllSingle(d: Document, e: Element)
    ensures AddAll(d, [e]) == AddOne(d, e)
  {
    AddAllSnoc(d, [], e);
    assert [] + [e] == [e];
  }

  /** Adding one key element: appended, or refused when its field is present. */
  lemma WithKeysSingle(s: SpecState, e: Element)
    ensures WithKeys(s, [e]) ==
              if HasField(s.keys, e.field) then (s, DuplicateKey(e.field))
              else (s.(keys := s.keys + [e]), Ok)
  {
    AddAllSingle(s.keys, e);
  }

  /** Adding one option element: appended, or refused when its field is present. */
  lemma WithOptionsSingle(s: SpecState, e: Element)
    ensures WithOptions(s, [e]) ==
              if HasField(s.options, e.field) then (s, DuplicateOption(e.field))
              else (s.(options := s.options + [e]), Ok)
  {
    AddAllSingle(s.options, e);
  }

}
