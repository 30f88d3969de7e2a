/**
 The set of chunks that the browser fetches with the entry point
 (react/demo/vite.config.ts): a depth-first visit of the static imports.
 */
module BundleBudget {

  datatype Chunk = Chunk(isEntry: bool, imports: seq<string>)

  type Manifest = map<string, Chunk>

  /** A key without a chunk, like a chunk without imports, imports nothing. */
  function Imports(m: Manifest, key: string): seq<string> {
    if key in m then m[key].imports else []
  }

  /** A chain of static imports. */
  ghost predicate ImportChain(m: Manifest, p: seq<string>) {
    p != [] && forall i, j :: 0 <= i < |p| && j == i + 1 < |p| ==> p[j] in Imports(m, p[i])
  }

  ghost predicate Leads(m: Manifest, p: seq<string>, from: string, to: string) {
    ImportChain(m, p) && p[0] == from && p[|p| - 1] == to
  }

  ghost predicate Reaches(m: Manifest, from: string, to: string) {
    exists p :: Leads(m, p, from, to)
  }

  ghost predicate ReachableFromEntry(m: Manifest, key: string) {
    exists e :: e in m && m[e].isEntry && Reaches(m, e, key)
  }

  ghost predicate ClosedExcept(m: Manifest, s: set<string>, open: set<string>) {
    forall k, d :: k in s && k !in open && d in Imports(m, k) ==> d in s
  }

  lemma {:induction false} ClosedHoldsChain(m: Manifest, s: set<string>, p: seq<string>)
    requires ClosedExcept(m, s, {}) && ImportChain(m, p) && p[0] in s
    ensures p[|p| - 1] in s
    decreases |p|
  {
    if 1 < |p| {
      assert p[1] in Imports(m, p[0]);
      ClosedHoldsChain(m, s, p[1..]);
    }
  }

  lemma ReachesItself(m: Manifest, key: string)
    ensures Reaches(m, key, key)
  {
    assert Leads(m, [key], key, key);
  }

  lemma ReachesThroughImport(m: Manifest, key: string, d: string, to: string)
    requires d in Imports(m, key) && Reaches(m, d, to)
    ensures Reaches(m, key, to)
  {
    var p :| Leads(m, p, d, to);
    var q := [key] + p;
    forall i, j | 0 <= i < |q| && j == i + 1 < |q| ensures q[j] in Imports(m, q[i]) {
      assert i > 0 ==> q[i] == p[i - 1];
      assert q[j] == p[i];
    }
    assert Leads(m, q, key, to);
  }

  ghost predicate AllReached(m: Manifest, from: string, s: set<string>) {
    forall k :: k in s ==> Reaches(m, from, k)
  }

  lemma AllReachThroughImport(m: Manifest, key: string, d: string, s: set<string>)
    requires d in Imports(m, key) && AllReached(m, d, s)
    ensures AllReached(m, key, s)
  {
    forall k | k in s ensures Reaches(m, key, k) {
      ReachesThroughImport(m, key, d, k);
    }
  }

  ghost function Universe(m: Manifest): set<string> {
    m.Keys + set k, d | k in m && d in m[k].imports :: d
  }

  lemma ImportIsKnown(m: Manifest, key: string, d: string)
    requires d in Imports(m, key)
    ensures d in Universe(m)
  {
    assert key in m && d in m[key].imports;
  }

  class InitialChunks {
    const manifest: Manifest
    var initial: set<string>

    constructor (m: Manifest)
      ensures manifest == m && initial == {}
    {
      manifest, initial := m, {};
    }

    /** Adds what is reachable from `key`; the chunks being visited further up the stack stay open. */
    method Visit(key: string)
      requires key in Universe(manifest)
      modifies this
      ensures old(initial) + {key} <= initial
      ensures ClosedExcept(manifest, initial, old(initial))
      ensures AllReached(manifest, key, initial - old(initial))
      decreases Universe(manifest) - initial
    {
      if key in initial {
        return;
      }
      initial := initial + {key};
      ghost var before := initial;
      ReachesItself(manifest, key);
      var imports := Imports(manifest, key);
      for i := 0 to |imports|
        invariant before <= initial
        invariant forall j :: 0 <= j < i ==> imports[j] in initial
        invariant ClosedExcept(manifest, initial, before)
        invariant AllReached(manifest, key, initial - old(initial))
      {
        ghost var was := initial;
        ImportIsKnown(manifest, key, imports[i]);
        Visit(imports[i]);
        AllReachThroughImport(manifest, key, imports[i], initial - was);
      }
    }

    /** Visits every entry chunk, in the given order of the manifest's keys. */
    method Collect(order: seq<string>)
      requires initial == {} && forall k :: k in order <==> k in manifest
      modifies this
      ensures forall k :: k in initial <==> ReachableFromEntry(manifest, k)
    {
      for i := 0 to |order|
        invariant ClosedExcept(manifest, initial, {})
        invariant forall j :: 0 <= j < i && manifest[order[j]].isEntry ==> order[j] in initial
        invariant forall k :: k in initial ==> ReachableFromEntry(manifest, k)
      {
        if manifest[order[i]].isEntry {
          Visit(order[i]);
        }
      }
      forall k | ReachableFromEntry(manifest, k) ensures k in initial {
        var e :| e in manifest && manifest[e].isEntry && Reaches(manifest, e, k);
        assert e in order;
        var p :| Leads(manifest, p, e, k);
        ClosedHoldsChain(manifest, initial, p);
      }
    }
  }
}
