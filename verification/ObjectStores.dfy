/**
 The reference object store (internal/objectstore/memory.go) and the conditional
 head on top of it (internal/replica/head.go: `conditionalHead`). The other
 modules speak of versions of an object by their position in its history; here
 an ETag is a number from one counter that all objects share, and the contracts
 relate the two.
 */
module ObjectStores {
  import opened Options

  type Key = string
  type Data = nat

  datatype Object = Object(data: Data, etag: nat)

  function Versions(history: map<Key, seq<Object>>, key: Key): seq<Object> {
    if key in history then history[key] else []
  }

  /** Version `i` of a key carries this tag. */
  predicate Tagged(history: map<Key, seq<Object>>, key: Key, i: nat, etag: nat) {
    key in history && i < |history[key]| && history[key][i].etag == etag
  }

  /** Every version ever stored got a tag of its own. */
  ghost predicate TagsOk(history: map<Key, seq<Object>>, limit: nat) {
    && (forall k, i: nat, t: nat :: Tagged(history, k, i, t) ==> t <= limit)
    && (forall k, i: nat, l, j: nat,
          t: nat :: Tagged(history, k, i, t) && Tagged(history, l, j, t) ==> k == l && i == j)
  }

  /** What is present under a key is its newest version. */
  ghost predicate PresentOk(objects: map<Key, Object>, history: map<Key, seq<Object>>) {
    forall k :: k in objects ==> k in history && history[k] != [] && objects[k] == history[k][|history[k]| - 1]
  }

  lemma StoreKeeps(objects: map<Key, Object>, history: map<Key, seq<Object>>, limit: nat, key: Key, version: Object)
    requires TagsOk(history, limit) && PresentOk(objects, history) && version.etag == limit + 1
    ensures var more := history[key := Versions(history, key) + [version]];
            TagsOk(more, limit + 1) && PresentOk(objects[key := version], more)
  {
    var more := history[key := Versions(history, key) + [version]];
    forall k, i: nat, t: nat | Tagged(more, k, i, t)
      ensures if k == key && i == |Versions(history, key)| then t == limit + 1 else Tagged(history, k, i, t)
    {
    }
  }

  class Memory {
    var objects: map<Key, Object>
    var counter: nat
    const unconditional: bool
    /** All versions of every key, deleted ones included. */
    ghost var history: map<Key, seq<Object>>

    ghost predicate Valid()
      reads this
    {
      TagsOk(history, counter) && PresentOk(objects, history)
    }

    constructor (unconditional: bool)
      ensures Valid() && objects == map[] && history == map[] && this.unconditional == unconditional
    {
      this.unconditional := unconditional;
      objects := map[];
      counter := 0;
      history := map[];
    }

    method Get(key: Key) returns (r: Option<Object>)
      requires Valid()
      ensures r.Some? <==> key in objects
      ensures r.Some? ==> var versions := Versions(history, key); versions != [] && r.value == versions[|versions| - 1]
    {
      r := if key in objects then Some(objects[key]) else None;
    }

    /** `store`: one more version, under a tag that no version of any key has had. */
    method Put(key: Key, data: Data) returns (etag: nat)
      requires Valid()
      modifies this
      ensures Valid() && objects == old(objects)[key := Object(data, etag)]
      ensures history == old(history)[key := Versions(old(history), key) + [Object(data, etag)]]
      ensures forall k, i: nat :: !Tagged(old(history), k, i, etag)
    {
      StoreKeeps(objects, history, counter, key, Object(data, counter + 1));
      counter := counter + 1;
      etag := counter;
      objects := objects[key := Object(data, etag)];
      history := history[key := Versions(history, key) + [Object(data, etag)]];
    }

    method PutIfAbsent(key: Key, data: Data) returns (r: Option<nat>)
      requires Valid()
      modifies this
      ensures Valid() && (r.Some? <==> key !in old(objects) || unconditional)
      ensures r.Some? ==> objects == old(objects)[key := Object(data, r.value)]
      ensures history == if r.Some? then old(history)[key := Versions(old(history), key) + [Object(data, r.value)]]
              else old(history)
      ensures r.None? ==> objects == old(objects)
    {
      if key in objects && !unconditional {
        return None;
      }
      var etag := Put(key, data);
      r := Some(etag);
    }

    /**
     A write on top of version `p` of a key takes effect exactly when that version
     is still the newest one and was not deleted: nothing written in between is lost.
     */
    method PutIfMatch(key: Key, data: Data, etag: nat) returns (r: Option<nat>)
      requires Valid()
      modifies this
      ensures Valid()
      ensures !unconditional ==> forall p: nat :: Tagged(old(history), key, p, etag) ==>
                (r.Some? <==> key in old(objects) && p == |Versions(old(history), key)| - 1)
      ensures !unconditional && (forall p: nat :: !Tagged(old(history), key, p, etag)) ==> r.None?
      ensures unconditional ==> r.Some?
      ensures r.Some? ==> objects == old(objects)[key := Object(data, r.value)]
      ensures history == if r.Some? then old(history)[key := Versions(old(history), key) + [Object(data, r.value)]]
              else old(history)
      ensures r.None? ==> objects == old(objects)
    {
      assert key in objects ==> Tagged(history, key, |history[key]| - 1, objects[key].etag);
      if !unconditional && (key !in objects || objects[key].etag != etag) {
        return None;
      }
      var next := Put(key, data);
      r := Some(next);
    }

    method Delete(key: Key)
      requires Valid()
      modifies this`objects
      ensures Valid() && objects == old(objects) - {key}
    {
      objects := objects - {key};
    }

    /**
     `conditionalHead.commit`. `position` is the version the caller read, none if
     it found no head; `foreign` says that keys of the append mode were listed. A
     commit takes effect exactly when that version is still the newest and was not
     deleted, or when there is no head of either mode: as long as heads are not
     deleted, exactly when no other commit did in between.
     */
    method Commit(
      key: Key, body: Data, prev: Option<nat>, foreign: bool, ghost position: Option<nat>)
      returns (r: Option<nat>)
      requires Valid() && !unconditional && (prev.None? <==> position.None?)
      requires position.Some? ==> Tagged(history, key, position.value, prev.value)
      modifies this
      ensures Valid()
      ensures var versions := Versions(old(history), key);
              && (r.Some? <==> if position.None? then !foreign && key !in old(objects)
                               else key in old(objects) && position.value == |versions| - 1)
              && Versions(history, key) == (if r.Some? then versions + [Object(body, r.value)] else versions)
              && ((key !in old(objects) ==> versions == []) && !foreign ==>
                    (r.Some? <==> position == if versions == [] then None else Some(|versions| - 1)))
    {
      if prev.None? {
        if foreign { return None; }
        r := PutIfAbsent(key, body);
      } else {
        r := PutIfMatch(key, body, prev.value);
      }
    }
  }
}
