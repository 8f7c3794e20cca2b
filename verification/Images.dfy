/** internal/images/store.go and the pull step of internal/server/images.go: references, canonical form, lookup. */
module Images {
  import opened Common

  /** `PulledAt` in seconds; only passed through. */
  datatype Record = Pull(Ref: string, Tag: string, PulledAt: int)

  const HUB_PREFIXES: seq<string> := [
    "docker.io/library/",
    "index.docker.io/library/",
    "docker.io/",
    "index.docker.io/",
    "library/"]

  /** What follows the first of the prefixes that `ref` has. */
  function CutFirst(prefixes: seq<string>, ref: string): string
  {
    if prefixes == [] then ref
    else if prefixes[0] <= ref then ref[|prefixes[0]|..]
    else CutFirst(prefixes[1..], ref)
  }

  function CanonicalRef(ref: string): string { CutFirst(HUB_PREFIXES, ref) }

  predicate HasHubPrefix(ref: string) { exists i :: 0 <= i < |HUB_PREFIXES| && HUB_PREFIXES[i] <= ref }

  /** One Docker Hub prefix behind another, together not a Hub prefix themselves. */
  predicate DoublyPrefixed(ref: string)
  {
    exists p, q :: p in HUB_PREFIXES && q in HUB_PREFIXES && p + q !in HUB_PREFIXES && p + q <= ref
  }

  function Id(digest: string -> string, r: Record): string { "sha256:" + digest(r.Ref) }

  function TrimPrefix(s: string, prefix: string): string { if prefix <= s then s[|prefix|..] else s }

  predicate IsHex(s: string)
  {
    forall i :: 0 <= i < |s| ==> '0' <= s[i] <= '9' || 'a' <= s[i] <= 'f' || 'A' <= s[i] <= 'F'
  }

  /** `strings.ContainsAny(s, ":@")`. */
  predicate HasTagOrDigest(s: string) { ':' in s || '@' in s }

  /** The records whose ID starts with `prefix`. */
  function Hits(digest: string -> string, m: map<string, Record>, prefix: string): set<string>
  {
    set k | k in m && prefix <= digest(m[k].Ref)
  }

  /** The one record an ID prefix of at least four hex digits determines. */
  ghost function ByIdPrefix(digest: string -> string, m: map<string, Record>, name: string): Option<Record>
  {
    var prefix := TrimPrefix(name, "sha256:");
    if |prefix| >= 4 && IsHex(prefix) && exists k :: Hits(digest, m, prefix) == {k} then
      var k :| Hits(digest, m, prefix) == {k};
      Some(m[k])
    else None
  }

  /** The record a name stands for: exact reference, then `:latest`, then unique ID prefix. */
  ghost function Lookup(digest: string -> string, m: map<string, Record>, name: string): Option<Record>
  {
    var ref := CanonicalRef(name);
    if name == "" then None
    else if ref in m then Some(m[ref])
    else if !HasTagOrDigest(ref) && ref + ":latest" in m then Some(m[ref + ":latest"])
    else ByIdPrefix(digest, m, ref)
  }

  function BuildRef(fromImage: string, tag: string): string
  {
    if '@' in fromImage then fromImage
    else if tag == "" then fromImage + ":latest"
    else fromImage + ":" + tag
  }

  /** The store after a pull. */
  function Pulled(m: map<string, Record>, fromImage: string, tag: string, now: int): map<string, Record>
  {
    var ref := CanonicalRef(BuildRef(fromImage, tag));
    m[ref := Pull(ref, tag, now)]
  }

  /** Every key is its record's reference. */
  predicate KeyedByRef(m: map<string, Record>) { forall k :: k in m ==> m[k].Ref == k }

  /** Every recorded reference names a tag or a digest. */
  predicate Tagged(m: map<string, Record>) { forall k :: k in m ==> HasTagOrDigest(k) }

  /** `matched` and `hits` after walking the records of which `found` are hits. */
  ghost predicate Tally(m: map<string, Record>, found: set<string>, matched: Option<Record>, hits: nat)
  {
    && hits == |found|
    && (hits == 1 ==> exists k :: found == {k} && k in m && matched == Some(m[k]))
  }

  lemma IdDigits(digest: string -> string, r: Record)
    ensures TrimPrefix(Id(digest, r), "sha256:") == digest(r.Ref)
  {
  }

  lemma HitOrMiss(
      digest: string -> string, m: map<string, Record>, prefix: string, todo: set<string>, k: string,
      matched: Option<Record>, hits: nat)
    requires k in todo && todo <= m.Keys
    requires Tally(m, Hits(digest, m, prefix) - todo, matched, hits)
    ensures Tally(m, Hits(digest, m, prefix) - (todo - {k}),
      if prefix <= TrimPrefix(Id(digest, m[k]), "sha256:") then Some(m[k]) else matched,
      if prefix <= TrimPrefix(Id(digest, m[k]), "sha256:") then hits + 1 else hits)
  {
    IdDigits(digest, m[k]);
    var all := Hits(digest, m, prefix);
    if k in all {
      assert all - (todo - {k}) == (all - todo) + {k};
      if all - todo == {} {
        assert (all - todo) + {k} == {k};
      }
    } else {
      assert all - (todo - {k}) == all - todo;
    }
  }

  lemma Decided(digest: string -> string, m: map<string, Record>, name: string)
    ensures var prefix := TrimPrefix(name, "sha256:");
      |prefix| >= 4 && IsHex(prefix) ==> forall matched, hits :: Tally(m, Hits(digest, m, prefix), matched, hits) ==>
        && ByIdPrefix(digest, m, name) == (if hits != 1 then None else matched)
        && (hits == 1 ==> matched.Some? && matched.value in m.Values)
  {
  }

  method FindByIDPrefix(digest: string -> string, m: map<string, Record>, name: string) returns (r: Option<Record>)
    ensures r == ByIdPrefix(digest, m, name)
    ensures r.Some? ==> r.value in m.Values
  {
    var prefix := TrimPrefix(name, "sha256:");
    if |prefix| < 4 || !IsHex(prefix) {
      return None;
    }
    var matched, hits := None, 0;
    var todo := m.Keys;
    Decided(digest, m, name);
    while todo != {}
      invariant todo <= m.Keys
      invariant Tally(m, Hits(digest, m, prefix) - todo, matched, hits)
      decreases todo
    {
      var k :| k in todo;
      HitOrMiss(digest, m, prefix, todo, k, matched, hits);
      if prefix <= TrimPrefix(Id(digest, m[k]), "sha256:") {
        matched, hits := Some(m[k]), hits + 1;
      }
      todo := todo - {k};
    }
    assert Hits(digest, m, prefix) - todo == Hits(digest, m, prefix);
    return if hits != 1 then None else matched;
  }

  class Store {
    var m: map<string, Record>

    constructor ()
      ensures m == map[]
    {
      m := map[];
    }

    method Record(ref: string, tag: string, now: int) returns (r: Record)
      requires KeyedByRef(m)
      modifies this
      ensures KeyedByRef(m) && r == Pull(CanonicalRef(ref), tag, now)
      ensures m == old(m)[CanonicalRef(ref) := r]
    {
      var key := CanonicalRef(ref);
      r := Pull(key, tag, now);
      m := m[key := r];
    }

    method Has(ref: string) returns (ok: bool)
      ensures ok <==> CanonicalRef(ref) in m
    {
      ok := CanonicalRef(ref) in m;
    }

    /** Whatever order the map is walked in, the answer is that of Lookup. */
    method Find(digest: string -> string, name: string) returns (r: Option<Record>)
      ensures r == Lookup(digest, m, name)
    {
      if name == "" {
        return None;
      }
      var ref := CanonicalRef(name);
      if ref in m {
        return Some(m[ref]);
      }
      if !HasTagOrDigest(ref) {
        if ref + ":latest" in m {
          return Some(m[ref + ":latest"]);
        }
      }
      r := FindByIDPrefix(digest, m, ref);
    }

    /** Returns what Find would, and deletes that record's key and no other. */
    method Remove(digest: string -> string, name: string) returns (r: Option<Record>)
      requires KeyedByRef(m)
      modifies this
      ensures KeyedByRef(m) && r == Lookup(digest, old(m), name)
      ensures r.None? ==> m == old(m)
      ensures r.Some? ==> r.value.Ref in old(m) && old(m)[r.value.Ref] == r.value && m == old(m) - {r.value.Ref}
    {
      if name == "" {
        return None;
      }
      var ref := CanonicalRef(name);
      if ref in m {
        r := Some(m[ref]);
        m := m - {r.value.Ref};
        return;
      }
      if !HasTagOrDigest(ref) {
        if ref + ":latest" in m {
          r := Some(m[ref + ":latest"]);
          m := m - {r.value.Ref};
          return;
        }
      }
      r := FindByIDPrefix(digest, m, ref);
      if r.Some? {
        m := m - {r.value.Ref};
      }
    }
  }

  /** The pull handler: `false` is the 400 for a missing image name. */
  method CreateImage(store: Store, fromImage: string, tag: string, now: int) returns (ok: bool)
    requires KeyedByRef(store.m)
    modifies store
    ensures ok <==> fromImage != ""
    ensures store.m == if ok then Pulled(old(store.m), fromImage, tag, now) else old(store.m)
    ensures ok ==>
      var ref := if '@' in fromImage then fromImage else fromImage + ":" + if tag == "" then "latest" else tag;
      store.m == old(store.m)[CanonicalRef(ref) := Pull(CanonicalRef(ref), tag, now)]
    ensures KeyedByRef(store.m)
  {
    if fromImage == "" {
      return false;
    }
    assert fromImage + ":latest" == fromImage + ":" + "latest";
    var _ := store.Record(BuildRef(fromImage, tag), tag, now);
    return true;
  }
}
