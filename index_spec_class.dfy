/**
 * The fluent builder `IndexSpec` (src/mongo/client/index_spec.h) as a class
 * whose methods update its fields in place. Each chaining method is proved to
 * do to the builder's state what `Apply` in IndexSpecModel says the matching
 * call does; the C++ exception raised on a duplicate is the returned Outcome.
 */
module IndexSpecClass {

  import opened Wrappers
  import opened Bson
  import opened IndexSpecModel

  class IndexSpec {

    /** The auto-naming rule applied by `_rename`; its body is not part of this model. */
    const autoName: Document -> string

    /** `_name`: the explicit name, or the auto-generated one while `dynamicName` holds. */
    var currentName: string
    /** `_dynamicName`: no explicit name has been set. */
    var dynamicName: bool
    /** `_keys`: the key document being built. */
    var keys: Document
    /** `_options`: the option document being built. */
    var options: Document

    /** The builder's state as a value. */
    ghost function Model(): SpecState
      reads this
    {
      SpecState(keys, options, if dynamicName then None else Some(currentName))
    }

    /** No duplicate key or option, and an auto-generated name is up to date. */
    ghost predicate Valid()
      reads this
    {
      WellFormed(Model()) && (dynamicName ==> currentName == autoName(keys))
    }

    /** `IndexSpec()`: no keys, no options, an auto-generated name. */
    constructor (autoName: Document -> string)
      ensures Valid() && Model() == Empty
      ensures this.autoName == autoName
    {
      this.autoName := autoName;
      keys := [];
      options := [];
      dynamicName := true;
      currentName := autoName([]);
    }

    /** `_rename`: after the keys changed, regenerate the name unless one was set explicitly. */
    method Rename()
      requires WellFormed(Model())
      modifies this
      ensures Valid()
      ensures keys == old(keys) && options == old(options) && dynamicName == old(dynamicName)
      ensures !dynamicName ==> currentName == old(currentName)
    {
      if dynamicName {
        currentName := autoName(keys);
      }
    }

    /** `addKey(const BSONElement&)`: the element's field is indexed with the element's value. */
    method AddKeyElement(e: Element) returns (outcome: Outcome)
      requires Valid()
      modifies this
      ensures Valid()
      ensures (Model(), outcome) == Apply(old(Model()), Call.AddKeyElement(e))
    {
      AddAllSingle(keys, e);
      if HasField(keys, e.field) {
        return DuplicateKey(e.field);
      }
      keys := keys + [e];
      Rename();
      outcome := Ok;
    }

    /** `addKey(field, type = kIndexTypeAscending)`. */
    method AddKey(field: string, t: IndexType := Ascending) returns (outcome: Outcome)
      requires Valid()
      modifies this
      ensures Valid()
      ensures (Model(), outcome) == Apply(old(Model()), Call.AddKey(field, t))
    {
      outcome := AddKeyElement(Element(field, Encode(t)));
    }

    /** `addKeys(const KeyVector&)`: `addKey` on each pair in order, stopping at the first that raises. */
    method AddKeys(kv: KeyVector) returns (outcome: Outcome)
      requires Valid()
      modifies this
      ensures Valid()
      ensures (Model(), outcome) == Apply(old(Model()), Call.AddKeys(kv))
    {
      ghost var s0 := Model();
      ghost var es := KeyElements(kv);
      var i := 0;
      while i < |kv|
        invariant 0 <= i <= |kv|
        invariant Valid()
        invariant (Model(), Ok) == WithKeys(s0, es[..i])
      {
        ghost var mid := Model();
        assert es[i] == Element(kv[i].0, Encode(kv[i].1));
        outcome := AddKey(kv[i].0, kv[i].1);
        assert (Model(), outcome) == WithKeys(mid, [es[i]]);
        AddAllSingle(mid.keys, es[i]);
        AddAllStep(s0.keys, es, i);
        if outcome != Ok {
          return;
        }
        i := i + 1;
      }
      assert es[..i] == es;
      outcome := Ok;
    }

    /** `addKeys(const BSONObj&)`: `addKey` on each element in order, stopping at the first that raises. */
    method AddKeysFrom(d: Document) returns (outcome: Outcome)
      requires Valid()
      modifies this
      ensures Valid()
      ensures (Model(), outcome) == Apply(old(Model()), Call.AddKeysFrom(d))
    {
      ghost var s0 := Model();
      var i := 0;
      while i < |d|
        invariant 0 <= i <= |d|
        invariant Valid()
        invariant (Model(), Ok) == WithKeys(s0, d[..i])
      {
        ghost var mid := Model();
        outcome := AddKeyElement(d[i]);
        assert (Model(), outcome) == WithKeys(mid, [d[i]]);
        AddAllSingle(mid.keys, d[i]);
        AddAllStep(s0.keys, d, i);
        if outcome != Ok {
          return;
        }
        i := i + 1;
      }
      assert d[..i] == d;
      outcome := Ok;
    }

    /** `addOption(const BSONElement&)`: the element is appended verbatim unless its field is already set. */
    method AddOption(e: Element) returns (outcome: Outcome)
      requires Valid()
      modifies this
      ensures Valid()
      ensures (Model(), outcome) == Apply(old(Model()), Call.AddOption(e))
    {
      AddAllSingle(options, e);
      if HasField(options, e.field) {
        return DuplicateOption(e.field);
      }
      options := options + [e];
      outcome := Ok;
    }

    /** `addOptions(const BSONObj&)`: `addOption` on each element in order, stopping at the first that raises. */
    method AddOptions(d: Document) returns (outcome: Outcome)
      requires Valid()
      modifies this
      ensures Valid()
      ensures (Model(), outcome) == Apply(old(Model()), Call.AddOptions(d))
    {
      ghost var s0 := Model();
      var i := 0;
      while i < |d|
        invariant 0 <= i <= |d|
        invariant Valid()
        invariant (Model(), Ok) == WithOptions(s0, d[..i])
      {
        ghost var mid := Model();
        outcome := AddOption(d[i]);
        assert (Model(), outcome) == WithOptions(mid, [d[i]]);
        AddAllSingle(mid.options, d[i]);
        AddAllStep(s0.options, d, i);
        if outcome != Ok {
          return;
        }
        i := i + 1;
      }
      assert d[..i] == d;
      outcome := Ok;
    }

    /** A named option setter: its option is appended unless already set. */
    method SetOption(o: OptionSetter) returns (outcome: Outcome)
      requires Valid()
      modifies this
      ensures Valid()
      ensures (Model(), outcome) == Apply(old(Model()), Call.SetOption(o))
    {
      outcome := AddOption(OptionElement(o));
    }

    /** `background(value = true)`. */
    method Background(value: bool := true) returns (outcome: Outcome)
      requires Valid()
      modifies this
      ensures Valid()
      ensures (Model(), outcome) == Apply(old(Model()), Call.SetOption(OptionSetter.Background(value)))
    {
      outcome := SetOption(OptionSetter.Background(value));
    }

    /** `unique(value = true)`. */
    method Unique(value: bool := true) returns (outcome: Outcome)
      requires Valid()
      modifies this
      ensures Valid()
      ensures (Model(), outcome) == Apply(old(Model()), Call.SetOption(OptionSetter.Unique(value)))
    {
      outcome := SetOption(OptionSetter.Unique(value));
    }

    /** `dropDuplicates(value = true)`. */
    method DropDuplicates(value: bool := true) returns (outcome: Outcome)
      requires Valid()
      modifies this
      ensures Valid()
      ensures (Model(), outcome) == Apply(old(Model()), Call.SetOption(OptionSetter.DropDuplicates(value)))
    {
      outcome := SetOption(OptionSetter.DropDuplicates(value));
    }

    /** `dropDuplicatesDeprecated(value = true)`: the same option as `dropDuplicates`. */
    method DropDuplicatesDeprecated(value: bool := true) returns (outcome: Outcome)
      requires Valid()
      modifies this
      ensures Valid()
      ensures (Model(), outcome) == Apply(old(Model()), Call.SetOption(OptionSetter.DropDuplicates(value)))
    {
      outcome := DropDuplicates(value);
    }

    /** `sparse(value = true)`. */
    method Sparse(value: bool := true) returns (outcome: Outcome)
      requires Valid()
      modifies this
      ensures Valid()
      ensures (Model(), outcome) == Apply(old(Model()), Call.SetOption(OptionSetter.Sparse(value)))
    {
      outcome := SetOption(OptionSetter.Sparse(value));
    }

    /** `expireAfterSeconds(value)`. */
    method ExpireAfterSeconds(value: int32) returns (outcome: Outcome)
      requires Valid()
      modifies this
      ensures Valid()
      ensures (Model(), outcome) == Apply(old(Model()), Call.SetOption(OptionSetter.ExpireAfterSeconds(value)))
    {
      outcome := SetOption(OptionSetter.ExpireAfterSeconds(value));
    }

    /** `version(value)`: recorded as given; which versions the server accepts is its concern. */
    method Version(value: int32) returns (outcome: Outcome)
      requires Valid()
      modifies this
      ensures Valid()
      ensures (Model(), outcome) == Apply(old(Model()), Call.SetOption(OptionSetter.Version(value)))
    {
      outcome := SetOption(OptionSetter.Version(value));
    }

    /** `textWeights(value)`. */
    method TextWeights(value: Document) returns (outcome: Outcome)
      requires Valid()
      modifies this
      ensures Valid()
      ensures (Model(), outcome) == Apply(old(Model()), Call.SetOption(OptionSetter.TextWeights(value)))
    {
      outcome := SetOption(OptionSetter.TextWeights(value));
    }

    /** `textDefaultLanguage(value)`. */
    method TextDefaultLanguage(value: string) returns (outcome: Outcome)
      requires Valid()
      modifies this
      ensures Valid()
      ensures (Model(), outcome) == Apply(old(Model()), Call.SetOption(OptionSetter.TextDefaultLanguage(value)))
    {
      outcome := SetOption(OptionSetter.TextDefaultLanguage(value));
    }

    /** `textLanguageOverride(value)`. */
    method TextLanguageOverride(value: string) returns (outcome: Outcome)
      requires Valid()
      modifies this
      ensures Valid()
      ensures (Model(), outcome) == Apply(old(Model()), Call.SetOption(OptionSetter.TextLanguageOverride(value)))
    {
      outcome := SetOption(OptionSetter.TextLanguageOverride(value));
    }

    /** `textIndexVersion(value)`. */
    method TextIndexVersion(value: int32) returns (outcome: Outcome)
      requires Valid()
      modifies this
      ensures Valid()
      ensures (Model(), outcome) == Apply(old(Model()), Call.SetOption(OptionSetter.TextIndexVersion(value)))
    {
      outcome := SetOption(OptionSetter.TextIndexVersion(value));
    }

    /** `geo2DSphereIndexVersion(value)`. */
    method Geo2DSphereIndexVersion(value: int32) returns (outcome: Outcome)
      requires Valid()
      modifies this
      ensures Valid()
      ensures (Model(), outcome) == Apply(old(Model()), Call.SetOption(OptionSetter.Geo2DSphereIndexVersion(value)))
    {
      outcome := SetOption(OptionSetter.Geo2DSphereIndexVersion(value));
    }

    /** `geo2DBits(value)`. */
    method Geo2DBits(value: int32) returns (outcome: Outcome)
      requires Valid()
      modifies this
      ensures Valid()
      ensures (Model(), outcome) == Apply(old(Model()), Call.SetOption(OptionSetter.Geo2DBits(value)))
    {
      outcome := SetOption(OptionSetter.Geo2DBits(value));
    }

    /** `geo2DMin(value)`. */
    method Geo2DMin(value: Double) returns (outcome: Outcome)
      requires Valid()
      modifies this
      ensures Valid()
      ensures (Model(), outcome) == Apply(old(Model()), Call.SetOption(OptionSetter.Geo2DMin(value)))
    {
      outcome := SetOption(OptionSetter.Geo2DMin(value));
    }

    /** `geo2DMax(value)`. */
    method Geo2DMax(value: Double) returns (outcome: Outcome)
      requires Valid()
      modifies this
      ensures Valid()
      ensures (Model(), outcome) == Apply(old(Model()), Call.SetOption(OptionSetter.Geo2DMax(value)))
    {
      outcome := SetOption(OptionSetter.Geo2DMax(value));
    }

    /** `geoHaystackBucketSize(value)`. */
    method GeoHaystackBucketSize(value: Double) returns (outcome: Outcome)
      requires Valid()
      modifies this
      ensures Valid()
      ensures (Model(), outcome) == Apply(old(Model()), Call.SetOption(OptionSetter.GeoHaystackBucketSize(value)))
    {
      outcome := SetOption(OptionSetter.GeoHaystackBucketSize(value));
    }

    /** `name(value)`: set the name explicitly; it is never regenerated afterwards. */
    method SetName(value: string)
      requires Valid()
      modifies this
      ensures Valid()
      ensures (Model(), Ok) == Apply(old(Model()), Call.SetName(value))
    {
      currentName := value;
      dynamicName := false;
    }

    /** `name() const`: a copy of the current name. */
    method Name() returns (r: string)
      requires Valid()
      ensures r == CurrentName(Model(), autoName)
    {
      r := currentName;
    }

    /** `toBSON() const`: the keys and options, in insertion order; nothing is changed. */
    method ToBSON() returns (d: IndexDescription)
      requires Valid()
      ensures d == Describe(Model())
    {
      d := IndexDescription(keys, options);
    }
  }

  /**
   * Keys: `addKey(field)` indexes ascending (value 1), and adding a field
   * that is already a key is refused and changes nothing.
   */
  method KeyDefaultsScenario(autoName: Document -> string) returns (repeated: Outcome, d: IndexDescription)
    ensures repeated == DuplicateKey("a")
    ensures d == IndexDescription([Element("a", Int32(1))], [])
  {
    var a := Element("a", Int32(1));
    var spec := new IndexSpec(autoName);
    WithKeysSingle(Empty, a);
    var o := spec.AddKey("a");
    ghost var s1 := spec.Model();
    assert s1 == SpecState([a], [], None);
    assert HasField(s1.keys, "a") by { assert s1.keys[0].field == "a"; }
    WithKeysSingle(s1, Element("a", Encode(Hashed)));
    repeated := spec.AddKey("a", Hashed);
    assert spec.Model() == s1;
    d := spec.ToBSON();
  }

  /** Options: the boolean setters called without an argument record `true`. */
  method OptionDefaultsScenario(autoName: Document -> string) returns (d: IndexDescription)
    ensures d == IndexDescription([], [Element("background", Bool(true)), Element("unique", Bool(true)),
                                       Element("sparse", Bool(true))])
  {
    var bg, un, sp := Element("background", Bool(true)), Element("unique", Bool(true)), Element("sparse", Bool(true));
    assert OptionElement(OptionSetter.Background(true)) == bg;
    assert OptionElement(OptionSetter.Unique(true)) == un;
    assert OptionElement(OptionSetter.Sparse(true)) == sp;
    var spec := new IndexSpec(autoName);
    WithOptionsSingle(Empty, bg);
    var o := spec.Background();
    ghost var s1 := spec.Model();
    assert s1 == SpecState([], [bg], None);
    assert !HasField(s1.options, "unique");
    WithOptionsSingle(s1, un);
    o := spec.Unique();
    ghost var s2 := spec.Model();
    assert s2 == SpecState([], [bg, un], None);
    assert !HasField(s2.options, "sparse");
    WithOptionsSingle(s2, sp);
    o := spec.Sparse();
    assert spec.Model() == SpecState([], [bg, un, sp], None);
    d := spec.ToBSON();
  }

  /** `dropDuplicates()` then `dropDuplicatesDeprecated(false)`: one option, set once, to true. */
  method DropDuplicatesAliasScenario(autoName: Document -> string) returns (first: Outcome, second: Outcome, d: IndexDescription)
    ensures first == Ok && second == DuplicateOption("dropDups")
    ensures d.options == [Element("dropDups", Bool(true))]
  {
    var dd := Element("dropDups", Bool(true));
    var off := Element("dropDups", Bool(false));
    assert OptionElement(OptionSetter.DropDuplicates(true)) == dd;
    assert OptionElement(OptionSetter.DropDuplicates(false)) == off;
    var spec := new IndexSpec(autoName);
    WithOptionsSingle(Empty, dd);
    first := spec.DropDuplicates();
    ghost var s1 := spec.Model();
    assert s1 == SpecState([], [dd], None);
    assert HasField(s1.options, "dropDups") by { assert s1.options[0].field == "dropDups"; }
    WithOptionsSingle(s1, off);
    second := spec.DropDuplicatesDeprecated(false);
    assert spec.Model() == s1;
    d := spec.ToBSON();
  }

  /**
   * Without `name(s)` the name follows the keys, and a name already returned
   * is a copy that later keys do not change.
   */
  method DynamicNameScenario(autoName: Document -> string) returns (early: string, later: string)
    ensures early == autoName([Element("a", Int32(1))])
    ensures later == autoName([Element("a", Int32(1)), Element("b", Int32(-1))])
  {
    var a, b := Element("a", Int32(1)), Element("b", Int32(-1));
    var spec := new IndexSpec(autoName);
    WithKeysSingle(Empty, a);
    var o := spec.AddKey("a");
    ghost var s1 := spec.Model();
    assert s1 == SpecState([a], [], None);
    early := spec.Name();
    assert !HasField(s1.keys, "b");
    WithKeysSingle(s1, b);
    o := spec.AddKey("b", Descending);
    assert spec.Model() == SpecState([a, b], [], None);
    later := spec.Name();
  }

  /** After `name(s)`, keys added later do not change the name. */
  method ExplicitNameScenario(autoName: Document -> string) returns (n: string)
    ensures n == "by_hand"
  {
    var spec := new IndexSpec(autoName);
    spec.SetName("by_hand");
    assert spec.Model().explicitName == Some("by_hand");
    var o := spec.AddKey("a", Text);
    assert spec.Model().explicitName == Some("by_hand");
    n := spec.Name();
  }

}
