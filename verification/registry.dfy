/**
  A named, insert-once keyed registry binding identifiers to metadata.
  Registering an occupied key and looking up a missing key are fatal
  contract violations (panics); they are modelled as a `Panicked` outcome
  carrying the diagnostic the panic reports.
 */
module Registry {
  import opened Voxels

  /** Result of an operation that either returns or panics. */
  datatype Outcome<+T, +E> = Returned(value: T) | Panicked(reason: E)

  /** What a registry panic reports. */
  datatype RegistryPanic<K, V> =
    | AlreadyRegistered(registry: string, incoming: V, id: K, existing: V)
    | NotFound(registry: string, id: K)

  /** A registry: a diagnostic name and its key -> value bindings. */
  datatype Registry<K, V> = Registry(name: string, entries: map<K, V>)

  /** Binds `id` to `val`; panics, naming both values, if `id` is already bound. */
  function Register<K, V>(r: Registry<K, V>, id: K, val: V): (o: Outcome<Registry<K, V>, RegistryPanic<K, V>>)
    ensures o.Returned? <==> id !in r.entries
    ensures o.Returned? ==>
      && o.value.name == r.name
      && o.value.entries.Keys == r.entries.Keys + {id}
      && o.value.entries[id] == val
      && forall k :: k in r.entries ==> o.value.entries[k] == r.entries[k]
    ensures o.Panicked? ==> o.reason == AlreadyRegistered(r.name, val, id, r.entries[id])
  {
    if id in r.entries then
      Panicked(AlreadyRegistered(r.name, val, id, r.entries[id]))
    else
      Returned(Registry(r.name, r.entries[id := val]))
  }

  /** The value bound to `id`; panics, naming the registry, if there is none. */
  function Get<K, V>(r: Registry<K, V>, id: K): (o: Outcome<V, RegistryPanic<K, V>>)
    ensures o.Returned? <==> id in r.entries
    ensures o.Returned? ==> o.value == r.entries[id]
    ensures o.Panicked? ==> o.reason == NotFound(r.name, id)
  {
    if id in r.entries then Returned(r.entries[id]) else Panicked(NotFound(r.name, id))
  }

  /** After a successful registration, looking the key up returns the value
      passed in, and every other key looks up exactly as before. */
  lemma RegisterThenGet<K, V>(r: Registry<K, V>, id: K, val: V, other: K)
    requires id !in r.entries
    ensures Register(r, id, val).Returned?
    ensures Get(Register(r, id, val).value, id) == Returned(val)
    ensures other != id ==> Get(Register(r, id, val).value, other) == Get(r, other)
  {
  }

  /** A second registration at a bound key always panics, whatever its
      value, reports the first value, and never replaces it. */
  lemma RegisterNeverReplaces<K, V>(r: Registry<K, V>, id: K, first: V, second: V)
    requires id !in r.entries
    ensures var r1 := Register(r, id, first).value;
      && Register(r1, id, second) == Panicked(AlreadyRegistered(r.name, second, id, first))
      && Get(r1, id) == Returned(first)
  {
  }

  /** Applies a sequence of registrations in order, stopping at the first panic. */
  function RegisterAll<K, V>(r: Registry<K, V>, events: seq<(K, V)>): Outcome<Registry<K, V>, RegistryPanic<K, V>>
    decreases |events|
  {
    if |events| == 0 then Returned(r)
    else match Register(r, events[0].0, events[0].1)
      case Panicked(p) => Panicked(p)
      case Returned(r1) => RegisterAll(r1, events[1..])
  }

  /** The keys of a sequence of registrations are pairwise distinct. */
  ghost predicate DistinctKeys<K, V>(events: seq<(K, V)>)
  {
    forall i, j :: 0 <= i < j < |events| ==> events[i].0 != events[j].0
  }

  /** The keys a sequence of registrations binds. */
  ghost function KeysOf<K, V>(events: seq<(K, V)>): set<K>
  {
    set i | 0 <= i < |events| :: events[i].0
  }

  /** A sequence of registrations succeeds exactly when its keys are distinct
      and none is already bound; then the registry keeps its name, gains
      exactly those keys, each looks up to the value registered with it, and
      every earlier binding is unchanged. */
  lemma {:induction false} RegisterAllSucceedsIffFresh<K, V>(r: Registry<K, V>, events: seq<(K, V)>)
    ensures RegisterAll(r, events).Returned? <==> DistinctKeys(events) && KeysOf(events) !! r.entries.Keys
    ensures RegisterAll(r, events).Returned? ==>
      var r' := RegisterAll(r, events).value;
      && r'.name == r.name
      && r'.entries.Keys == r.entries.Keys + KeysOf(events)
      && (forall k :: k in r.entries ==> r'.entries[k] == r.entries[k])
      && (forall i :: 0 <= i < |events| ==> r'.entries[events[i].0] == events[i].1)
    decreases |events|
  {
    if |events| > 0 {
      var id, val := events[0].0, events[0].1;
      var rest := events[1..];
      assert KeysOf(events) == {id} + KeysOf(rest) by {
        forall k | k in KeysOf(events) ensures k in {id} + KeysOf(rest) {
          var i :| 0 <= i < |events| && events[i].0 == k;
          if i > 0 { assert rest[i - 1].0 == k; }
        }
        forall k | k in KeysOf(rest) ensures k in KeysOf(events) {
          var i :| 0 <= i < |rest| && rest[i].0 == k;
          assert events[i + 1].0 == k;
        }
      }
      assert DistinctKeys(events) <==> id !in KeysOf(rest) && DistinctKeys(rest) by {
        if DistinctKeys(events) {
          forall i, j | 0 <= i < j < |rest| ensures rest[i].0 != rest[j].0 {
            assert events[i + 1].0 != events[j + 1].0;
          }
          forall i | 0 <= i < |rest| ensures rest[i].0 != id {
            assert rest[i] == events[i + 1];
          }
        }
        if id !in KeysOf(rest) && DistinctKeys(rest) {
          forall i, j | 0 <= i < j < |events| ensures events[i].0 != events[j].0 {
            if i == 0 {
              assert events[j].0 == rest[j - 1].0;
            } else {
              assert events[i].0 == rest[i - 1].0 && events[j].0 == rest[j - 1].0;
            }
          }
        }
      }
      if id in r.entries {
        assert id in KeysOf(events);
      } else {
        var r1 := Register(r, id, val).value;
        RegisterAllSucceedsIffFresh(r1, rest);
        if RegisterAll(r, events).Returned? {
          var r' := RegisterAll(r, events).value;
          forall i | 0 <= i < |events| ensures r'.entries[events[i].0] == events[i].1 {
            if i > 0 {
              assert events[i] == rest[i - 1];
            }
          }
        }
      }
    }
  }

  /** Every key bound by a successful sequence of registrations can be looked
      up without panicking. */
  lemma RegisteredKeysNeverMissing<K, V>(r: Registry<K, V>, events: seq<(K, V)>, i: nat)
    requires RegisterAll(r, events).Returned? && i < |events|
    ensures Get(RegisterAll(r, events).value, events[i].0) == Returned(events[i].1)
  {
    RegisterAllSucceedsIffFresh(r, events);
  }

  // ---------------------------------------------------------------------
  // The block registry built at plugin start-up.
  // ---------------------------------------------------------------------

  /** Metadata of a block material (only its name is modelled). */
  datatype BlockRegistryInfo = BlockRegistryInfo(name: string)

  type BlockRegistry = Registry<BlockMaterialId, BlockRegistryInfo>

  /** The empty block registry. */
  function EmptyBlockRegistry(): (r: BlockRegistry)
    ensures r.name == "Block Registry" && |r.entries| == 0
  {
    Registry("Block Registry", map[])
  }

  /** The registry plugin's start-up contents: the empty block registry with
      block 1 registered as "black". */
  function BuildBlockRegistry(): (r: BlockRegistry)
    ensures r.name == "Block Registry"
    ensures r.entries.Keys == {1}
    ensures Get(r, 1) == Returned(BlockRegistryInfo("black"))
  {
    Register(EmptyBlockRegistry(), 1, BlockRegistryInfo("black")).value
  }

  /** Registering stone at 1 and dirt at 2 into the empty block registry
      succeeds, both look up by name, and registering 1 again panics. */
  lemma StoneAndDirtScenario(again: BlockRegistryInfo)
    ensures var o := RegisterAll(EmptyBlockRegistry(), [(1, BlockRegistryInfo("stone")), (2, BlockRegistryInfo("dirt"))]);
      && o.Returned?
      && Get(o.value, 1) == Returned(BlockRegistryInfo("stone"))
      && Get(o.value, 2) == Returned(BlockRegistryInfo("dirt"))
      && Register(o.value, 1, again).Panicked?
  {
  }
}
