/**
 * The registry of processed documents: a Python dict from file name to its
 * record. A dict keeps its keys in insertion order, keeps each key once,
 * and assigning to a key it already holds replaces the value in place; the
 * same dict, pickled, is the persisted metadata.
 */
module Records {

  /** One entry of `processed_docs` (document_handler.py:47-52). */
  datatype DocRecord = DocRecord(
    filePath: string,
    vectorstorePath: string,
    chunksCount: nat,
    status: string)

  predicate Distinct(s: seq<string>) {
    forall i, j :: 0 <= i < j < |s| ==> s[i] != s[j]
  }

  datatype RegistryState = RegistryState(keys: seq<string>, docs: map<string, DocRecord>)

  predicate WellFormed(keys: seq<string>, docs: map<string, DocRecord>) {
    && Distinct(keys)
    && (forall k :: k in keys ==> k in docs)
    && (forall k :: k in docs ==> k in keys)
  }

  /** A dict of records: its keys, each once, in insertion order, and the
      record under each key. */
  type Registry = r: RegistryState | WellFormed(r.keys, r.docs)
    witness RegistryState([], map[])

  const Empty: Registry := RegistryState([], map[])

  /** `d[name] = rec`. */
  function Put(r: Registry, name: string, rec: DocRecord): Registry {
    if name in r.docs then RegistryState(r.keys, r.docs[name := rec])
    else RegistryState(r.keys + [name], r.docs[name := rec])
  }

  /** `s` with every occurrence of `x` dropped, the rest in order. */
  function Without(s: seq<string>, x: string): (t: seq<string>)
    ensures forall y :: y in t <==> y in s && y != x
    ensures Distinct(s) ==> Distinct(t)
  {
    if s == [] then []
    else
      var rest := Without(s[1..], x);
      assert Distinct(s) ==> Distinct(s[1..]) && s[0] !in s[1..] by {
        if Distinct(s) {
          forall i, j | 0 <= i < j < |s| - 1 ensures s[1..][i] != s[1..][j] {
            assert s[1..][i] == s[i + 1] && s[1..][j] == s[j + 1];
          }
        }
      }
      if s[0] == x then rest else [s[0]] + rest
  }

  /** `del d[name]`. */
  function Delete(r: Registry, name: string): Registry {
    RegistryState(Without(r.keys, name), r.docs - {name})
  }

  /** The last key, the one `list(d.keys())[-1]` names. */
  function LastKey(r: Registry): string
    requires r.keys != []
  {
    r.keys[|r.keys| - 1]
  }

  /** Reference order of a dict built by a run of assignments: each name at
      the place where it first occurred. */
  function FirstOccurrences(s: seq<string>): seq<string> {
    if s == [] then []
    else
      var d := FirstOccurrences(s[..|s| - 1]);
      if s[|s| - 1] in d then d else d + [s[|s| - 1]]
  }

  lemma {:induction false} FirstOccurrencesMembers(s: seq<string>, x: string)
    ensures x in FirstOccurrences(s) <==> x in s
  {
    if s != [] {
      FirstOccurrencesMembers(s[..|s| - 1], x);
      assert s == s[..|s| - 1] + [s[|s| - 1]];
    }
  }

  /** A sequence without repetitions is its own first-occurrence order. */
  lemma {:induction false} FirstOccurrencesOfDistinct(s: seq<string>)
    requires Distinct(s)
    ensures FirstOccurrences(s) == s
  {
    if s != [] {
      var p := s[..|s| - 1];
      FirstOccurrencesOfDistinct(p);
      assert s[|s| - 1] !in p;
      assert p + [s[|s| - 1]] == s;
    }
  }

  /** Assignment orders keys exactly as first occurrence does: a new name
      goes last, a name already present keeps its place. */
  lemma PutOrder(r: Registry, name: string, rec: DocRecord)
    ensures Put(r, name, rec).keys == FirstOccurrences(r.keys + [name])
    ensures Put(r, name, rec).docs == r.docs[name := rec]
  {
    FirstOccurrencesOfDistinct(r.keys);
    assert (r.keys + [name])[..|r.keys|] == r.keys;
  }

  /** A run of assignments `d[n] = rec` for each `(n, rec)` in order. */
  function PutAll(r: Registry, entries: seq<(string, DocRecord)>): Registry
    decreases |entries|
  {
    if entries == [] then r
    else
      var e := entries[|entries| - 1];
      Put(PutAll(r, entries[..|entries| - 1]), e.0, e.1)
  }

  function Names(entries: seq<(string, DocRecord)>): (ns: seq<string>)
    ensures |ns| == |entries| && forall i :: 0 <= i < |ns| ==> ns[i] == entries[i].0
  {
    seq(|entries|, i requires 0 <= i < |entries| => entries[i].0)
  }

  lemma {:induction false} FirstOccurrencesSnoc(a: seq<string>, x: string)
    ensures FirstOccurrences(FirstOccurrences(a) + [x]) == FirstOccurrences(a + [x])
  {
    var d := FirstOccurrences(a);
    FirstOccurrencesDistinct(a);
    FirstOccurrencesOfDistinct(d);
    FirstOccurrencesMembers(a, x);
    assert (a + [x])[..|a|] == a;
    assert (d + [x])[..|d|] == d;
  }

  lemma {:induction false} FirstOccurrencesDistinct(s: seq<string>)
    ensures Distinct(FirstOccurrences(s))
  {
    if s != [] {
      FirstOccurrencesDistinct(s[..|s| - 1]);
    }
  }

  lemma NamesSnoc(entries: seq<(string, DocRecord)>)
    requires entries != []
    ensures Names(entries) == Names(entries[..|entries| - 1]) + [entries[|entries| - 1].0]
  {
  }

  /** After any run of successful assignments, the keys are the names in
      order of first occurrence; so the last key, the default target of a
      query, is the most recently ADDED name, not the most recently assigned. */
  lemma {:induction false} PutAllOrder(r: Registry, entries: seq<(string, DocRecord)>)
    ensures PutAll(r, entries).keys == FirstOccurrences(r.keys + Names(entries))
    decreases |entries|
  {
    if entries == [] {
      FirstOccurrencesOfDistinct(r.keys);
      assert r.keys + Names(entries) == r.keys;
    } else {
      var init := entries[..|entries| - 1];
      var e := entries[|entries| - 1];
      var pre := r.keys + Names(init);
      PutAllOrder(r, init);
      PutOrder(PutAll(r, init), e.0, e.1);
      FirstOccurrencesSnoc(pre, e.0);
      NamesSnoc(entries);
      assert r.keys + Names(entries) == pre + [e.0];
    }
  }

  /** Deleting a key leaves every other key where it was. */
  lemma {:induction false} DeleteKeepsOrder(s: seq<string>, i: nat)
    requires Distinct(s) && i < |s|
    ensures Without(s, s[i]) == s[..i] + s[i + 1..]
  {
    if i == 0 {
      WithoutAbsent(s[1..], s[0]);
      assert s[..0] + s[1..] == s[1..];
    } else {
      DeleteKeepsOrder(s[1..], i - 1);
      assert s[1..][i - 1] == s[i];
      assert s[..i] == [s[0]] + s[1..][..i - 1];
      assert s[i + 1..] == s[1..][i..];
    }
  }

  lemma {:induction false} WithoutAbsent(s: seq<string>, x: string)
    requires x !in s
    ensures Without(s, x) == s
  {
    if s != [] {
      WithoutAbsent(s[1..], x);
      assert [s[0]] + s[1..] == s;
    }
  }

  /** Adding a new document and deleting it again restores the registry. */
  lemma PutThenDelete(r: Registry, name: string, rec: DocRecord)
    requires name !in r.docs
    ensures Delete(Put(r, name, rec), name) == r
  {
    var s := r.keys + [name];
    assert s[|r.keys|] == name;
    DeleteKeepsOrder(s, |r.keys|);
    assert s[..|r.keys|] + s[|r.keys| + 1..] == r.keys;
    assert r.docs[name := rec] - {name} == r.docs;
  }
}
