/** The part of the Pinecone service the assistant uses: named indexes, each a store of records
    keyed by id. A record here holds the fact text of its metadata; the embedding it also
    carries is left out. */
module Pinecone {

  /** The records of one index: id to fact text. */
  type Records = map<string, string>

  /** Upserting the facts one after another, each under the id idOf gives it (vector_memory.py
      line 129 is one such upsert; lines 109-110 and 145-146 loop over a list). */
  function UpsertAll(r: Records, idOf: string -> string, facts: seq<string>): Records
    decreases |facts|
  {
    if facts == [] then r else UpsertAll(r[idOf(facts[0]) := facts[0]], idOf, facts[1..])
  }

  /** The ids the facts are stored under. */
  function Ids(idOf: string -> string, facts: seq<string>): set<string>
  {
    set f | f in facts :: idOf(f)
  }

  /** Every record is stored under the id of its own text. */
  ghost predicate Keyed(r: Records, idOf: string -> string)
  {
    forall id :: id in r ==> idOf(r[id]) == id
  }

  /** No two texts share an id. */
  ghost predicate Injective(idOf: string -> string)
  {
    forall a: string, b: string :: idOf(a) == idOf(b) ==> a == b
  }

  // ----- Laws of upserting -----

  /** Upserting one more fact sets its id's record and changes nothing else. */
  lemma {:induction false} UpsertAllSnoc(r: Records, idOf: string -> string, facts: seq<string>, f: string)
    ensures UpsertAll(r, idOf, facts + [f]) == UpsertAll(r, idOf, facts)[idOf(f) := f]
    decreases |facts|
  {
    if facts == [] {
      assert UpsertAll(r, idOf, [f]) == UpsertAll(r[idOf(f) := f], idOf, []);
    } else {
      assert (facts + [f])[1..] == facts[1..] + [f];
      UpsertAllSnoc(r[idOf(facts[0]) := facts[0]], idOf, facts[1..], f);
    }
  }

  /** Upserting two lists is upserting the first, then the second. */
  lemma {:induction false} UpsertAllAppend(r: Records, idOf: string -> string, a: seq<string>, b: seq<string>)
    ensures UpsertAll(r, idOf, a + b) == UpsertAll(UpsertAll(r, idOf, a), idOf, b)
    decreases |a|
  {
    if a != [] {
      assert (a + b)[1..] == a[1..] + b;
      UpsertAllAppend(r[idOf(a[0]) := a[0]], idOf, a[1..], b);
    } else {
      assert a + b == b;
    }
  }

  /** The records after upserting: the old records overridden by the facts' own records. */
  lemma {:induction false} UpsertAllOverrides(r: Records, idOf: string -> string, facts: seq<string>)
    ensures UpsertAll(r, idOf, facts) == r + UpsertAll(map[], idOf, facts)
    decreases |facts|
  {
    if facts == [] {
      assert r + map[] == r;
    } else {
      var id, f := idOf(facts[0]), facts[0];
      var rest := UpsertAll(map[], idOf, facts[1..]);
      UpsertAllOverrides(r[id := f], idOf, facts[1..]);
      UpsertAllOverrides(map[id := f], idOf, facts[1..]);
      assert r[id := f] + rest == r + (map[id := f] + rest);
    }
  }

  /** The facts' own records are stored under their ids. */
  lemma {:induction false} FactRecordsKeys(idOf: string -> string, facts: seq<string>)
    ensures UpsertAll(map[], idOf, facts).Keys == Ids(idOf, facts)
    decreases |facts|
  {
    if facts != [] {
      var id := idOf(facts[0]);
      UpsertAllOverrides(map[id := facts[0]], idOf, facts[1..]);
      FactRecordsKeys(idOf, facts[1..]);
      assert Ids(idOf, facts) == {id} + Ids(idOf, facts[1..]) by {
        assert forall g :: g in facts <==> g == facts[0] || g in facts[1..];
      }
    }
  }

  /** Upserting adds exactly the facts' ids to the keys, and leaves every other record as it
      was. */
  lemma {:induction false} UpsertAllFrame(r: Records, idOf: string -> string, facts: seq<string>)
    ensures UpsertAll(r, idOf, facts).Keys == r.Keys + Ids(idOf, facts)
    ensures forall id :: id in r && id !in Ids(idOf, facts) ==> UpsertAll(r, idOf, facts)[id] == r[id]
  {
    UpsertAllOverrides(r, idOf, facts);
    FactRecordsKeys(idOf, facts);
  }

  /** Each fact is stored under its id with a text of that id; with distinct ids, the text is
      the fact itself. */
  lemma {:induction false} UpsertAllStores(r: Records, idOf: string -> string, facts: seq<string>)
    requires Keyed(r, idOf)
    ensures Keyed(UpsertAll(r, idOf, facts), idOf)
    ensures forall f :: f in facts ==> idOf(f) in UpsertAll(r, idOf, facts)
    ensures Injective(idOf) ==> forall f :: f in facts ==> UpsertAll(r, idOf, facts)[idOf(f)] == f
    decreases |facts|
  {
    if facts != [] {
      var r' := r[idOf(facts[0]) := facts[0]];
      UpsertAllStores(r', idOf, facts[1..]);
      UpsertAllFrame(r', idOf, facts[1..]);
      var u := UpsertAll(r, idOf, facts);
      forall f | f in facts ensures idOf(f) in u && (Injective(idOf) ==> u[idOf(f)] == f) {
        if f != facts[0] {
          assert f in facts[1..];
        }
      }
    }
  }

  /** The last fact upserted under an id is the one kept. */
  lemma {:induction false} LastWriteWins(r: Records, idOf: string -> string, facts: seq<string>, f: string)
    ensures var u := UpsertAll(r, idOf, facts + [f]); idOf(f) in u && u[idOf(f)] == f
  {
    UpsertAllSnoc(r, idOf, facts, f);
  }

  /** Upserting the same facts again changes nothing: a repeated fact leaves one record. */
  lemma {:induction false} UpsertAllIdempotent(r: Records, idOf: string -> string, facts: seq<string>)
    ensures UpsertAll(UpsertAll(r, idOf, facts), idOf, facts) == UpsertAll(r, idOf, facts)
    ensures UpsertAll(r, idOf, facts + facts) == UpsertAll(r, idOf, facts)
  {
    var own := UpsertAll(map[], idOf, facts);
    UpsertAllOverrides(r, idOf, facts);
    UpsertAllOverrides(r + own, idOf, facts);
    assert (r + own) + own == r + own;
    UpsertAllAppend(r, idOf, facts, facts);
  }

  /** Each fact adds at most one record. */
  lemma {:induction false} UpsertAllGrowth(r: Records, idOf: string -> string, facts: seq<string>)
    ensures |UpsertAll(r, idOf, facts).Keys| <= |r.Keys| + |facts|
    decreases |facts|
  {
    if facts != [] {
      var r' := r[idOf(facts[0]) := facts[0]];
      var id := idOf(facts[0]);
      if id in r {
        assert r'.Keys == r.Keys;
      } else {
        assert r'.Keys == r.Keys + {id};
      }
      UpsertAllGrowth(r', idOf, facts[1..]);
    }
  }

  // ----- The service -----

  /** A Pinecone client: the indexes of the account, by name. */
  class Client {
    var indexes: map<string, Records>

    /** A client on an account that may already hold indexes from earlier runs. */
    constructor(existing: map<string, Records>)
      ensures indexes == existing
    {
      indexes := existing;
    }

    /** `list_indexes().names()`. */
    function Names(): set<string>
      reads this
    {
      indexes.Keys
    }

    /** `create_index`: a new, empty index. The service refuses a name already in use. */
    method CreateIndex(name: string)
      requires name !in indexes
      modifies this
      ensures indexes == old(indexes)[name := map[]]
    {
      indexes := indexes[name := map[]];
    }

    /** `Index(name).upsert` of one record. */
    method Upsert(name: string, id: string, text: string)
      requires name in indexes
      modifies this
      ensures indexes == old(indexes)[name := old(indexes)[name][id := text]]
    {
      indexes := indexes[name := indexes[name][id := text]];
    }
  }
}
