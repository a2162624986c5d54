/**
 * Properties of the index-specification builder stated over its value
 * semantics (IndexSpecModel): duplicates are refused, bulk adders are repeated
 * single adds, an explicit name sticks, and what is described is exactly what
 * was added, in order.
 */
module IndexSpecLemmas {

  import opened Wrappers
  import opened Bson
  import opened IndexSpecModel

  /** `kIndexValAscending` is 1, `kIndexValDescending` is -1, and distinct types encode distinctly. */
  lemma EncodeIsInjective(a: IndexType, b: IndexType)
    ensures Encode(Ascending) == Int32(1) && Encode(Descending) == Int32(-1)
    ensures Encode(a) == Encode(b) ==> a == b
  {
  }

  /**
   * What one call does to the keys: they stay in front, and the call appends
   * either all the keys it carries or, when it raises, a leading part of them
   * after which the reported field is already present. Option calls and
   * `name(s)` leave the keys as they are.
   */
  lemma ApplyAppendsKeys(s: SpecState, c: Call)
    ensures var r := Apply(s, c);
            && s.keys <= r.0.keys <= s.keys + CallKeys(c)
            && (r.1.Ok? ==> r.0.keys == s.keys + CallKeys(c))
            && (r.1.DuplicateKey? ==> r.0.keys < s.keys + CallKeys(c) && HasField(r.0.keys, r.1.key))
            && (!r.1.DuplicateKey? ==> r.0.keys == s.keys + CallKeys(c))
  {
  }

  /** The same for the options. */
  lemma ApplyAppendsOptions(s: SpecState, c: Call)
    ensures var r := Apply(s, c);
            && s.options <= r.0.options <= s.options + CallOptions(c)
            && (r.1.Ok? ==> r.0.options == s.options + CallOptions(c))
            && (r.1.DuplicateOption? ==> r.0.options < s.options + CallOptions(c) && HasField(r.0.options, r.1.option))
            && (!r.1.DuplicateOption? ==> r.0.options == s.options + CallOptions(c))
  {
  }

  /** One call never puts a field twice into the keys or the options. */
  lemma ApplyKeepsWellFormed(s: SpecState, c: Call)
    requires WellFormed(s)
    ensures WellFormed(Apply(s, c).0)
  {
  }

  /** Only `name(s)` touches the name, and it always succeeds. */
  lemma ApplyKeepsName(s: SpecState, c: Call)
    ensures c.SetName? ==> Apply(s, c) == (s.(explicitName := Some(c.name)), Ok)
    ensures !c.SetName? ==> Apply(s, c).0.explicitName == s.explicitName
  {
  }

  /**
   * `addKey(field, type)`: a new field is appended at the end with its encoded
   * type and nothing else changes; a field already present is refused and
   * nothing changes at all.
   */
  lemma AddKeyAppendsOrRefuses(s: SpecState, f: string, t: IndexType)
    ensures Apply(s, AddKey(f, t)) ==
              if HasField(s.keys, f) then (s, DuplicateKey(f))
              else (s.(keys := s.keys + [Element(f, Encode(t))]), Ok)
  {
    WithKeysSingle(s, Element(f, Encode(t)));
  }

  /** `addOption(element)`: the same discipline on the option document. */
  lemma AddOptionAppendsOrRefuses(s: SpecState, e: Element)
    ensures Apply(s, AddOption(e)) ==
              if HasField(s.options, e.field) then (s, DuplicateOption(e.field))
              else (s.(options := s.options + [e]), Ok)
  {
    WithOptionsSingle(s, e);
  }

  /**
   * `dropDuplicates` followed by `dropDuplicatesDeprecated` (or either one
   * twice) sets one option twice: the first is recorded, the second raises.
   */
  lemma DropDuplicatesTwiceIsRefused(s: SpecState, x: bool, y: bool)
    requires !HasField(s.options, "dropDups")
    ensures Chain(s, [SetOption(DropDuplicates(x)), SetOption(DropDuplicates(y))]) ==
              (s.(options := s.options + [Element("dropDups", Bool(x))]), DuplicateOption("dropDups"))
  {
    var e1, e2 := OptionElement(DropDuplicates(x)), OptionElement(DropDuplicates(y));
    AddAllSingle(s.options, e1);
    var s1 := s.(options := s.options + [e1]);
    assert Apply(s, SetOption(DropDuplicates(x))) == (s1, Ok);
    assert HasField(s1.options, "dropDups") by {
      assert s1.options[|s.options|] == e1;
    }
    var rest := [SetOption(DropDuplicates(x)), SetOption(DropDuplicates(y))][1..];
    assert rest == [SetOption(DropDuplicates(y))];
    AddAllSingle(s1.options, e2);
    assert Chain(s1, rest) == Apply(s1, SetOption(DropDuplicates(y)));
  }

  /**
   * A bulk add succeeds exactly when the document it produces has no field
   * twice (given the starting document has none).
   */
  lemma {:induction false} AddAllSucceedsIff(d: Document, es: Document)
    requires UniqueFields(d)
    ensures AddAll(d, es).duplicate.None? <==> UniqueFields(d + es)
    decreases |es|
  {
    if es != [] {
      var init, last := es[..|es| - 1], es[|es| - 1];
      assert d + es == (d + init) + [last];
      AddAllSucceedsIff(d, init);
      var prev := AddAll(d, init);
      if prev.duplicate.Some? {
        var i, j :| 0 <= i < j < |d + init| && (d + init)[i].field == (d + init)[j].field;
        assert (d + es)[i] == (d + init)[i] && (d + es)[j] == (d + init)[j];
      } else {
        assert prev.doc == d + init;
        if HasField(d + init, last.field) {
          var i :| 0 <= i < |d + init| && (d + init)[i].field == last.field;
          assert (d + es)[i].field == (d + es)[|d + init|].field;
        } else {
          assert UniqueFields(d + es);
        }
      }
    }
  }

  /** The chain with one more call at the end. */
  lemma {:induction false} ChainSnoc(s: SpecState, cs: seq<Call>, c: Call)
    ensures Chain(s, cs + [c]) ==
              var p := Chain(s, cs);
              if p.1 != Ok then p else Apply(p.0, c)
    decreases |cs|
  {
    if cs == [] {
      assert [c][1..] == [];
    } else {
      assert (cs + [c])[0] == cs[0];
      assert (cs + [c])[1..] == cs[1..] + [c];
      ChainSnoc(Apply(s, cs[0]).0, cs[1..], c);
    }
  }

  /** `c` adds exactly the key `e`, through `addKey(field, type)` or `addKey(element)`. */
  predicate AddsKey(c: Call, e: Element)
  {
    (c.AddKey? || c.AddKeyElement?) && CallKeys(c) == [e]
  }

  /** Bulk key adding is the chain of single key adds, one per element, in order. */
  lemma {:induction false} KeysBulkIsChain(s: SpecState, es: Document, cs: seq<Call>)
    requires |cs| == |es|
    requires forall i :: 0 <= i < |cs| ==> AddsKey(cs[i], es[i])
    ensures Chain(s, cs) == WithKeys(s, es)
    decreases |es|
  {
    if es != [] {
      var n := |es| - 1;
      assert cs == cs[..n] + [cs[n]];
      assert es == es[..n] + [es[n]];
      KeysBulkIsChain(s, es[..n], cs[..n]);
      ChainSnoc(s, cs[..n], cs[n]);
      var p := Chain(s, cs[..n]);
      AddAllSnoc(s.keys, es[..n], es[n]);
      if p.1 == Ok {
        AddAllSingle(p.0.keys, es[n]);
        assert Apply(p.0, cs[n]) == WithKeys(p.0, [es[n]]);
      }
    }
  }

  /** `c` sets exactly the option `e`, through a named setter or `addOption`. */
  predicate AddsOption(c: Call, e: Element)
  {
    (c.SetOption? || c.AddOption?) && CallOptions(c) == [e]
  }

  /** Bulk option adding is the chain of single option adds, one per element, in order. */
  lemma {:induction false} OptionsBulkIsChain(s: SpecState, es: Document, cs: seq<Call>)
    requires |cs| == |es|
    requires forall i :: 0 <= i < |cs| ==> AddsOption(cs[i], es[i])
    ensures Chain(s, cs) == WithOptions(s, es)
    decreases |es|
  {
    if es != [] {
      var n := |es| - 1;
      assert cs == cs[..n] + [cs[n]];
      assert es == es[..n] + [es[n]];
      OptionsBulkIsChain(s, es[..n], cs[..n]);
      ChainSnoc(s, cs[..n], cs[n]);
      var p := Chain(s, cs[..n]);
      AddAllSnoc(s.options, es[..n], es[n]);
      if p.1 == Ok {
        AddAllSingle(p.0.options, es[n]);
        assert Apply(p.0, cs[n]) == WithOptions(p.0, [es[n]]);
      }
    }
  }

  /** `addKeys(KeyVector)` is `addKey(first, second)` on each pair in vector order. */
  lemma {:induction false} AddKeysIsRepeatedAddKey(s: SpecState, kv: KeyVector)
    ensures Apply(s, AddKeys(kv)) == Chain(s, seq(|kv|, i requires 0 <= i < |kv| => AddKey(kv[i].0, kv[i].1)))
  {
    KeysBulkIsChain(s, KeyElements(kv), seq(|kv|, i requires 0 <= i < |kv| => AddKey(kv[i].0, kv[i].1)));
  }

  /** `addKeys(BSONObj)` is `addKey(element)` on each element in document order. */
  lemma {:induction false} AddKeysFromIsRepeatedAddKey(s: SpecState, d: Document)
    ensures Apply(s, AddKeysFrom(d)) == Chain(s, seq(|d|, i requires 0 <= i < |d| => AddKeyElement(d[i])))
  {
    KeysBulkIsChain(s, d, seq(|d|, i requires 0 <= i < |d| => AddKeyElement(d[i])));
  }

  /** `addOptions(BSONObj)` is `addOption(element)` on each element in document order. */
  lemma {:induction false} AddOptionsIsRepeatedAddOption(s: SpecState, d: Document)
    ensures Apply(s, AddOptions(d)) == Chain(s, seq(|d|, i requires 0 <= i < |d| => AddOption(d[i])))
  {
    OptionsBulkIsChain(s, d, seq(|d|, i requires 0 <= i < |d| => AddOption(d[i])));
  }

  /** No chain of calls ever puts a field twice into the keys or the options. */
  lemma {:induction false} ChainKeepsWellFormed(s: SpecState, cs: seq<Call>)
    requires WellFormed(s)
    ensures WellFormed(Chain(s, cs).0)
    decreases |cs|
  {
    if cs != [] {
      var (s', o) := Apply(s, cs[0]);
      ApplyKeepsWellFormed(s, cs[0]);
      if o == Ok {
        ChainKeepsWellFormed(s', cs[1..]);
      }
    }
  }

  /** Every builder reachable from a fresh one by chained calls is well formed. */
  lemma {:induction false} ReachableIsWellFormed(cs: seq<Call>)
    ensures UniqueFields(Chain(Empty, cs).0.keys) && UniqueFields(Chain(Empty, cs).0.options)
  {
    ChainKeepsWellFormed(Empty, cs);
  }

  /** No `name(s)` among the calls. */
  predicate NoRename(cs: seq<Call>)
  {
    forall i :: 0 <= i < |cs| ==> !cs[i].SetName?
  }

  /** Calls other than `name(s)` leave the explicit name (or its absence) alone. */
  lemma {:induction false} ChainKeepsExplicitName(s: SpecState, cs: seq<Call>)
    requires NoRename(cs)
    ensures Chain(s, cs).0.explicitName == s.explicitName
    decreases |cs|
  {
    if cs != [] {
      var (s', o) := Apply(s, cs[0]);
      ApplyKeepsName(s, cs[0]);
      if o == Ok {
        ChainKeepsExplicitName(s', cs[1..]);
      }
    }
  }

  /** After `name(n)`, `name()` returns `n` whatever keys and options are added later. */
  lemma {:induction false} ExplicitNameSticks(s: SpecState, n: string, cs: seq<Call>, autoName: Document -> string)
    requires NoRename(cs)
    ensures CurrentName(Chain(s, [SetName(n)] + cs).0, autoName) == n
  {
    assert ([SetName(n)] + cs)[0] == SetName(n) && ([SetName(n)] + cs)[1..] == cs;
    ChainKeepsExplicitName(s.(explicitName := Some(n)), cs);
  }

  /** Without `name(s)`, `name()` is the auto-generated name of the keys at the time of the call. */
  lemma {:induction false} DynamicNameFollowsKeys(s: SpecState, cs: seq<Call>, autoName: Document -> string)
    requires s.explicitName.None?
    requires NoRename(cs)
    ensures CurrentName(Chain(s, cs).0, autoName) == autoName(Chain(s, cs).0.keys)
  {
    ChainKeepsExplicitName(s, cs);
  }

  /** The key elements of the calls, concatenated in call order. */
  function AllKeys(cs: seq<Call>): Document
    decreases |cs|
  {
    if cs == [] then [] else CallKeys(cs[0]) + AllKeys(cs[1..])
  }

  /** The option elements of the calls, concatenated in call order. */
  function AllOptions(cs: seq<Call>): Document
    decreases |cs|
  {
    if cs == [] then [] else CallOptions(cs[0]) + AllOptions(cs[1..])
  }

  /**
   * A chain only ever appends keys: the keys that were there stay in front,
   * and what is appended is a leading part of the keys the calls carry.
   */
  lemma {:induction false} ChainAppendsKeys(s: SpecState, cs: seq<Call>)
    ensures s.keys <= Chain(s, cs).0.keys <= s.keys + AllKeys(cs)
    decreases |cs|
  {
    if cs != [] {
      var c, rest := cs[0], cs[1..];
      var a := Apply(s, c);
      ApplyAppendsKeys(s, c);
      AppendAssociates(s.keys, CallKeys(c), AllKeys(rest));
      if a.1 != Ok {
        PrefixOfLonger(a.0.keys, s.keys + CallKeys(c), AllKeys(rest));
      } else {
        ChainAppendsKeys(a.0, rest);
        PrefixTransitive(s.keys, a.0.keys, Chain(a.0, rest).0.keys);
      }
    }
  }

  /** When no call raised, all the keys the calls carry were appended, in call order. */
  lemma {:induction false} ChainAppendsAllKeys(s: SpecState, cs: seq<Call>)
    requires Chain(s, cs).1 == Ok
    ensures Chain(s, cs).0.keys == s.keys + AllKeys(cs)
    decreases |cs|
  {
    if cs != [] {
      var c, rest := cs[0], cs[1..];
      var a := Apply(s, c);
      assert a.1 == Ok && Chain(s, cs) == Chain(a.0, rest);
      ApplyAppendsKeys(s, c);
      AppendAssociates(s.keys, CallKeys(c), AllKeys(rest));
      ChainAppendsAllKeys(a.0, rest);
    }
  }

  /** The same for the options. */
  lemma {:induction false} ChainAppendsOptions(s: SpecState, cs: seq<Call>)
    ensures s.options <= Chain(s, cs).0.options <= s.options + AllOptions(cs)
    decreases |cs|
  {
    if cs != [] {
      var c, rest := cs[0], cs[1..];
      var a := Apply(s, c);
      ApplyAppendsOptions(s, c);
      AppendAssociates(s.options, CallOptions(c), AllOptions(rest));
      if a.1 != Ok {
        PrefixOfLonger(a.0.options, s.options + CallOptions(c), AllOptions(rest));
      } else {
        ChainAppendsOptions(a.0, rest);
        PrefixTransitive(s.options, a.0.options, Chain(a.0, rest).0.options);
      }
    }
  }

  /** The same for the options. */
  lemma {:induction false} ChainAppendsAllOptions(s: SpecState, cs: seq<Call>)
    requires Chain(s, cs).1 == Ok
    ensures Chain(s, cs).0.options == s.options + AllOptions(cs)
    decreases |cs|
  {
    if cs != [] {
      var c, rest := cs[0], cs[1..];
      ApplyAppendsOptions(s, c);
      AppendAssociates(s.options, CallOptions(c), AllOptions(rest));
      ChainAppendsAllOptions(Apply(s, c).0, rest);
    }
  }

  /**
   * Concatenation regroups. Stated as a lemma so that the chain proofs name
   * the one instance they need instead of leaving the solver to search for it.
   */
  lemma AppendAssociates(a: Document, b: Document, c: Document)
    ensures a + (b + c) == (a + b) + c
  {
  }

  /** A prefix of a document stays a prefix when the document is extended. */
  lemma PrefixOfLonger(a: Document, b: Document, x: Document)
    requires a <= b
    ensures a <= b + x
  {
    assert (b + x)[..|b|] == b;
  }

  /** Being a prefix is transitive. */
  lemma PrefixTransitive(a: Document, b: Document, c: Document)
    requires a <= b && b <= c
    ensures a <= c
  {
    assert c[..|b|][..|a|] == c[..|a|];
  }

  /** `toBSON()` of a builder made by a chain that raised nothing lists exactly what was added, in order. */
  lemma {:induction false} DescriptionListsAdditions(cs: seq<Call>)
    requires Chain(Empty, cs).1 == Ok
    ensures Describe(Chain(Empty, cs).0) == IndexDescription(AllKeys(cs), AllOptions(cs))
  {
    ChainAppendsAllKeys(Empty, cs);
    ChainAppendsAllOptions(Empty, cs);
  }

}
