# IndexSpec: a verified model of the MongoDB C++ driver's index-specification builder

`mongo::IndexSpec` (src/mongo/client/index_spec.h) is a fluent builder for an
index description. Each chaining call appends to one of two ordered
documents:
- the key document, which maps a field name to its encoded index type;
- the option document, which maps an option name to its value.

The builder also keeps a name. The name is either set with `name(s)` or
generated from the current keys. A field may appear at most once in the keys,
and an option name at most once in the options. A call that would repeat one
raises an error.

The project has four modules:

- `Bson` (bson.dfy) holds the slice of BSON the builder touches: values, elements, documents, and the
  `HasField` and `UniqueFields` predicates. The value kinds the named setters write (int32, boolean,
  string, double, embedded document) are spelled out. Any other kind that `addKey(element)`,
  `addKeys(BSONObj)`, `addOption` or `addOptions` passes through is `Other`: its BSON type byte and
  its encoded payload, kept verbatim.
- `IndexSpecModel` (index_spec_model.dfy) gives the meaning of the builder as values:
  - `SpecState`: the keys, the options and the explicit name;
  - `Apply`: what one chaining call does;
  - `Chain`: a fluent chain of calls, abandoned at the first call that raises;
  - `AddOne` and `AddAll`: checked appends;
  - `Encode`: the `IndexType` to value mapping;
  - `KeyElements`: the key elements a `KeyVector` stands for, one (field, encoded type) element per
    pair in vector order, by definition;
  - `OptionElement`: the option element each named setter appends, with the option names the MongoDB server documents (see "## Left out");
  - `CallKeys` and `CallOptions`: the elements each call carries;
  - `CurrentName` and `Describe`: what `name()` and `toBSON()` report.
- `IndexSpecLemmas` (index_spec_lemmas.dfy) proves the properties the header promises, about
  single calls and about whole chains.
- `IndexSpecClass` (index_spec_class.dfy) holds the class `IndexSpec`:
  - Its fields are `currentName` (`_name`), `dynamicName` (`_dynamicName`), `keys` (`_keys`) and
    `options` (`_options`).
  - Every chaining method updates these fields in place.
  - Every chaining method is proved to do exactly what `Apply` says the matching call does:
    `(Model(), outcome) == Apply(old(Model()), call)`. It also keeps the invariant `Valid()`: no
    duplicate key, no duplicate option, and an auto-generated name that is up to date.
  - The bulk adders loop over their input. Their loop invariants tie the state after `i` steps to
    the checked append of the first `i` elements.
  - A few concrete call sequences are checked end to end: the default arguments, the
    `dropDuplicates` alias, and naming.

The C++ error raised on a duplicate is modelled as a returned `Outcome`
(`DuplicateKey` or `DuplicateOption`).
- A single add that raises changes nothing.
- A bulk add that raises keeps the elements it appended before the duplicate.
- In a chain, the calls after a raising call do not run.

## Model

| member | source | states |
|---|---|---|
| `IndexSpecModel.Encode` | src/mongo/client/index_spec.h:32-50 | Only ascending and descending encode as numbers, namely 1 and -1. Every other index type encodes as a string. |
| `IndexSpecLemmas.EncodeIsInjective` | src/mongo/client/index_spec.h:43-50 | `kIndexValAscending` is 1 and `kIndexValDescending` is -1, and distinct index types encode as distinct values, so the stored value identifies the type. |
| `IndexSpecModel.AddOne` | src/mongo/client/index_spec.h:55-58 | A checked append. An element whose field is absent is appended at the end. Otherwise it is refused and the document is unchanged. Refused exactly when the field is present. Never creates a duplicate field. |
| `IndexSpecModel.AddAll` | src/mongo/client/index_spec.h:71-76 | Checked appends in order, stopping at the first refusal. The result lies between the old document and the old document plus everything. On success the result is all of it. On refusal it is a strict prefix, and the reported field is the next element's field, which is already present. Never creates a duplicate field. |
| `IndexSpecModel.AddAllStopsAtRefusal` | src/mongo/client/index_spec.h:71-76 | Once an element has been refused, the elements after it change nothing. |
| `IndexSpecModel.AddAllSnoc` | src/mongo/client/index_spec.h:71-76 | A bulk append of `es + [e]` is the bulk append of `es` followed by one checked append of `e`, unless `es` was already refused. |
| `IndexSpecModel.AddAllStep` | src/mongo/client/index_spec.h:71-76 | After a successful prefix, the next single append either extends the run or ends the whole bulk append with its result. |
| `IndexSpecModel.AddAllSingle` | src/mongo/client/index_spec.h:71-76 | A bulk append of one element is the single checked append. |
| `IndexSpecModel.WithKeysSingle` | src/mongo/client/index_spec.h:55-62 | Adding one key appends it and reports success, or refuses a present field with `DuplicateKey` and changes nothing. |
| `IndexSpecModel.WithOptionsSingle` | src/mongo/client/index_spec.h:79-81 | Adding one option appends it and reports success, or refuses a present name with `DuplicateOption` and changes nothing. |
| `IndexSpecLemmas.ApplyAppendsKeys` | src/mongo/client/index_spec.h:55-76 | Keys are append-only. Any call leaves the old keys as a prefix of the new ones. Success adds exactly what the call carries. A duplicate keeps a strict prefix whose reported field is present. Non-key calls leave the keys alone. |
| `IndexSpecLemmas.ApplyAppendsOptions` | src/mongo/client/index_spec.h:79-191 | The same for the options: append-only; exactly the carried elements on success; a strict prefix on `DuplicateOption`; untouched by non-option calls. |
| `IndexSpecLemmas.ApplyKeepsWellFormed` | src/mongo/client/index_spec.h:55-58 | No call puts a field twice into the keys or an option twice into the options. |
| `IndexSpecLemmas.ApplyKeepsName` | src/mongo/client/index_spec.h:99-100 | `name(s)` always succeeds, sets the explicit name to `s` (replacing any earlier one) and changes nothing else. No other call touches the name. |
| `IndexSpecLemmas.AddKeyAppendsOrRefuses` | src/mongo/client/index_spec.h:55-62 | `addKey(f, t)` on an absent field appends exactly `(f, encoded t)` at the end of the keys, with the options and the name unchanged. On a present field it raises `DuplicateKey(f)` and changes nothing. |
| `IndexSpecLemmas.AddOptionAppendsOrRefuses` | src/mongo/client/index_spec.h:187-188 | `addOption(e)` appends `e` verbatim at the end of the options, or raises `DuplicateOption` when its name is present, changing nothing. |
| `IndexSpecLemmas.DropDuplicatesTwiceIsRefused` | src/mongo/client/index_spec.h:102-110 | `dropDuplicates(x)` followed by `dropDuplicatesDeprecated(y)` (the same option) records `x` once and then raises on the second call. |
| `IndexSpecLemmas.AddAllSucceedsIff` | src/mongo/client/index_spec.h:55-81 | On a duplicate-free document, a bulk append succeeds if and only if the document plus all the new elements is duplicate-free. |
| `IndexSpecLemmas.ChainSnoc` | src/mongo/client/index_spec.h:61-191 | A chain with one more call is the shorter chain followed by that call, unless the shorter chain already raised. |
| `IndexSpecLemmas.KeysBulkIsChain` | src/mongo/client/index_spec.h:71-76 | A bulk key append equals the chain of single key adds of its elements, in order. |
| `IndexSpecLemmas.OptionsBulkIsChain` | src/mongo/client/index_spec.h:187-191 | A bulk option append equals the chain of single option adds of its elements, in order. |
| `IndexSpecLemmas.AddKeysIsRepeatedAddKey` | src/mongo/client/index_spec.h:71-73 | `addKeys(KeyVector)` equals calling `addKey(field, type)` on each pair in vector order. |
| `IndexSpecLemmas.AddKeysFromIsRepeatedAddKey` | src/mongo/client/index_spec.h:75-76 | `addKeys(BSONObj)` equals calling `addKey(element)` on each element in order. |
| `IndexSpecLemmas.AddOptionsIsRepeatedAddOption` | src/mongo/client/index_spec.h:190-191 | `addOptions(BSONObj)` equals calling `addOption` on each element in order. |
| `IndexSpecLemmas.ChainKeepsWellFormed` | src/mongo/client/index_spec.h:55-81 | Any chain of calls keeps the keys and the options free of duplicates. |
| `IndexSpecLemmas.ReachableIsWellFormed` | src/mongo/client/index_spec.h:52-81 | Every state reachable from a fresh builder has no duplicate key and no duplicate option. |
| `IndexSpecLemmas.ChainKeepsExplicitName` | src/mongo/client/index_spec.h:99-100 | A chain without `name(s)` leaves the explicit name as it was. |
| `IndexSpecLemmas.ExplicitNameSticks` | src/mongo/client/index_spec.h:193-199 | After `name(n)`, `name()` returns `n` whatever key and option calls follow (any calls but a further `name(s)`). |
| `IndexSpecLemmas.DynamicNameFollowsKeys` | src/mongo/client/index_spec.h:193-199 | Without `name(s)`, `name()` after any chain is the auto-generated name of the keys at that point. |
| `IndexSpecLemmas.ChainAppendsKeys` | src/mongo/client/index_spec.h:55-76 | Over any chain the keys only grow. They lie between the old keys and the old keys plus every key the calls carry. |
| `IndexSpecLemmas.ChainAppendsAllKeys` | src/mongo/client/index_spec.h:55-76 | A chain that raises nothing appends exactly the keys its calls carry, in call order. |
| `IndexSpecLemmas.ChainAppendsOptions` | src/mongo/client/index_spec.h:79-191 | Over any chain the options only grow, bounded by the old options plus every option the calls carry. |
| `IndexSpecLemmas.ChainAppendsAllOptions` | src/mongo/client/index_spec.h:79-191 | A chain that raises nothing appends exactly the options its calls carry, in call order. |
| `IndexSpecLemmas.DescriptionListsAdditions` | src/mongo/client/index_spec.h:201-202 | For a fresh builder and a chain that raised nothing, `toBSON()` reports exactly the keys and the options added, in insertion order. |
| `IndexSpecClass.IndexSpec.constructor` | src/mongo/client/index_spec.h:52-53 | A new builder has no keys, no options and an auto-generated name. |
| `IndexSpecClass.IndexSpec.Rename` | src/mongo/client/index_spec.h:205 | Regenerates the name from the keys when no name was set explicitly. Keys, options and an explicit name are left unchanged. |
| `IndexSpecClass.IndexSpec.AddKeyElement` | src/mongo/client/index_spec.h:64-69 | `addKey(element)`: the new state and outcome are those of `Apply` for the element. The invariant is kept. |
| `IndexSpecClass.IndexSpec.AddKey` | src/mongo/client/index_spec.h:61-62 | `addKey(field, type)` is the `Apply` of the call, with the type ascending when omitted. The invariant is kept. |
| `IndexSpecClass.IndexSpec.AddKeys` | src/mongo/client/index_spec.h:71-73 | The loop over the key vector ends in the state and outcome `Apply` gives `addKeys(KeyVector)`. |
| `IndexSpecClass.IndexSpec.AddKeysFrom` | src/mongo/client/index_spec.h:75-76 | The loop over the key document ends in the state and outcome `Apply` gives `addKeys(BSONObj)`. |
| `IndexSpecClass.IndexSpec.AddOption` | src/mongo/client/index_spec.h:187-188 | `addOption(element)` is the `Apply` of the call. The invariant is kept. |
| `IndexSpecClass.IndexSpec.AddOptions` | src/mongo/client/index_spec.h:190-191 | The loop over the option document ends in the state and outcome `Apply` gives `addOptions`. |
| `IndexSpecClass.IndexSpec.SetOption` | src/mongo/client/index_spec.h:79-81 | A named setter appends its option element unless that option is already set. |
| `IndexSpecClass.IndexSpec.Background` | src/mongo/client/index_spec.h:88-91 | `background(value = true)` sets the `background` option, to true when no argument is given. |
| `IndexSpecClass.IndexSpec.Unique` | src/mongo/client/index_spec.h:93-96 | `unique(value = true)` sets the `unique` option, to true by default. |
| `IndexSpecClass.IndexSpec.DropDuplicates` | src/mongo/client/index_spec.h:102-106 | `dropDuplicates(value = true)` sets the `dropDups` option, to true by default. |
| `IndexSpecClass.IndexSpec.DropDuplicatesDeprecated` | src/mongo/client/index_spec.h:108-110 | It is the same call as `dropDuplicates`, on the same option. |
| `IndexSpecClass.IndexSpec.Sparse` | src/mongo/client/index_spec.h:112-115 | `sparse(value = true)` sets the `sparse` option, to true by default. |
| `IndexSpecClass.IndexSpec.ExpireAfterSeconds` | src/mongo/client/index_spec.h:117-121 | Sets the `expireAfterSeconds` option to the given 32-bit integer. |
| `IndexSpecClass.IndexSpec.Version` | src/mongo/client/index_spec.h:123-127 | Sets the index version option `v`. Any value is accepted. |
| `IndexSpecClass.IndexSpec.TextWeights` | src/mongo/client/index_spec.h:134-135 | Sets the `weights` option to the given document. |
| `IndexSpecClass.IndexSpec.TextDefaultLanguage` | src/mongo/client/index_spec.h:137-138 | Sets the `default_language` option. |
| `IndexSpecClass.IndexSpec.TextLanguageOverride` | src/mongo/client/index_spec.h:140-141 | Sets the `language_override` option. |
| `IndexSpecClass.IndexSpec.TextIndexVersion` | src/mongo/client/index_spec.h:143-146 | Sets the `textIndexVersion` option. |
| `IndexSpecClass.IndexSpec.Geo2DSphereIndexVersion` | src/mongo/client/index_spec.h:153-156 | Sets the `2dsphereIndexVersion` option. |
| `IndexSpecClass.IndexSpec.Geo2DBits` | src/mongo/client/index_spec.h:163-164 | Sets the `bits` option. |
| `IndexSpecClass.IndexSpec.Geo2DMin` | src/mongo/client/index_spec.h:166-167 | Sets the `min` option to the given double. |
| `IndexSpecClass.IndexSpec.Geo2DMax` | src/mongo/client/index_spec.h:169-170 | Sets the `max` option to the given double. |
| `IndexSpecClass.IndexSpec.GeoHaystackBucketSize` | src/mongo/client/index_spec.h:177-178 | Sets the `bucketSize` option to the given double. |
| `IndexSpecClass.IndexSpec.SetName` | src/mongo/client/index_spec.h:99-100 | `name(s)` makes `s` the explicit name and turns auto-naming off. |
| `IndexSpecClass.IndexSpec.Name` | src/mongo/client/index_spec.h:193-199 | `name()` returns the explicit name if one was set, otherwise the auto-generated name of the current keys. It changes nothing. |
| `IndexSpecClass.IndexSpec.ToBSON` | src/mongo/client/index_spec.h:201-202 | `toBSON()` changes nothing and reports the keys and the options, in insertion order. |
| `IndexSpecClass.KeyDefaultsScenario` | src/mongo/client/index_spec.h:44-62 | `addKey("a")` records `a: 1`. A second `addKey("a", hashed)` raises `DuplicateKey("a")`. The keys stay `{a: 1}`. |
| `IndexSpecClass.OptionDefaultsScenario` | src/mongo/client/index_spec.h:91-115 | `background()`, `unique()` and `sparse()` with no argument record `true`, in call order. |
| `IndexSpecClass.DropDuplicatesAliasScenario` | src/mongo/client/index_spec.h:102-110 | `dropDuplicates()` then `dropDuplicatesDeprecated(false)`: the first succeeds and the second raises `DuplicateOption("dropDups")`. The options stay `{dropDups: true}`. |
| `IndexSpecClass.DynamicNameScenario` | src/mongo/client/index_spec.h:193-199 | With no explicit name, `name()` is the auto-generated name of the keys at the time of the call. A copy taken earlier reflects the earlier keys. |
| `IndexSpecClass.ExplicitNameScenario` | src/mongo/client/index_spec.h:99-100 | After `name("by_hand")`, adding a key leaves `name()` at `"by_hand"`. |

## Left out

- src/mongo/client/update_write_operation.h is not part of this model. It holds only declarations. The behaviour of its flags, its wire layout and its size arithmetic lives in an implementation file this model does not have.
- src/mongo/util/concurrency/thread_name.h is not part of this model. It is per-thread name storage for diagnostics, declarations only.
- wrap.cxx is not part of this model. It is a build script that runs a compiler and an external tool.
- The auto-naming rule (`_rename`'s body, src/mongo/client/index_spec.h:205) is not shown. It is the constructor parameter `autoName`, an uninterpreted function of the key document. Only its use (regenerate after every key change while the name is dynamic) is modelled.
- The header declares the string constants `kIndexValText` and the others without their text. It also does not name the option fields the setters write. The model uses the names the MongoDB server documents ("text", "2d", "dropDups", "expireAfterSeconds", "v", and so on). No proof depends on these names beyond their being distinct.
- IndexSpecLemmas.ApplyKeepsName: a second `name(s)` is modelled as replacing the first, not as a refusal. `name(StringData)` is declared among the option setters, and the group's comment says duplicated settings raise an error (src/mongo/client/index_spec.h:79-100). But the name is kept in `_name`, not in `_options` (src/mongo/client/index_spec.h:207-211), and the header shows no duplicate check on it. The model reads the duplicate check as covering the option document only.
- IndexSpecClass.IndexSpec.SetName: the same reading. A later `name(s)` overwrites `currentName` and never raises.
- The comment on `name()` mentions "a name provided to the constructor", but the only constructor declared is `IndexSpec()` (src/mongo/client/index_spec.h:53). The model follows the declaration: the only explicit name is the one `name(s)` sets.
- `toBSON()` is modelled as the pair (key document, option document), `IndexDescription`. How the driver lays these out in one BSON object, whether the name is embedded, and the BSON byte encoding are not modelled.
- Element values of a kind the named setters do not write are `Other`: a BSON type byte and an encoded payload. They are carried verbatim and never decoded.
- The `double` options (`geo2DMin`, `geo2DMax`, `geoHaystackBucketSize`) store an opaque 64-bit pattern. No floating-point reasoning is done.
- C++ `int` arguments are the BSON 32-bit integer type `int32`. The model has no arithmetic on them.
- Server-side acceptance rules are not enforced, because the builder does not enforce them either. Examples: index version only 0 or 1, text index versions, and compound-index validity (src/mongo/client/index_spec.h:57-58, 123-126).
- The deprecation-warning macro on `dropDuplicates` (src/mongo/client/index_spec.h:105) is a compile-time artifact.
- A raised error is modelled as a returned `Outcome`, not as a C++ exception. `Chain` stands for a fluent chain that an exception abandons.
- The `BSONObjBuilder` internals (`mutable` builders, temporary objects) are modelled as plain sequences that the methods reassign.
