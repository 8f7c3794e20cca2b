/** Laws of canonicalRef and of pulling and looking up: internal/images/store.go, internal/server/images.go. */
module ImageRefs {
  import opened Common
  import opened Images
  import Ids

  lemma HubPrefixShape(p: string)
    requires p in HUB_PREFIXES
    ensures |p| >= 8 && p[|p| - 1] == '/' && !HasTagOrDigest(p)
  {
  }

  /** `ref` has the prefix at `i` and none before it. */
  predicate FirstMatch(prefixes: seq<string>, ref: string, i: nat)
  {
    i < |prefixes| && prefixes[i] <= ref && forall j :: 0 <= j < i ==> !(prefixes[j] <= ref)
  }

  lemma {:induction false} CutFirstAt(prefixes: seq<string>, ref: string, i: nat)
    requires FirstMatch(prefixes, ref, i)
    ensures CutFirst(prefixes, ref) == ref[|prefixes[i]|..]
  {
    if i > 0 {
      assert !(prefixes[0] <= ref);
      assert FirstMatch(prefixes[1..], ref, i - 1);
      CutFirstAt(prefixes[1..], ref, i - 1);
    }
  }

  lemma {:induction false} CutFirstNone(prefixes: seq<string>, ref: string)
    requires forall i :: 0 <= i < |prefixes| ==> !(prefixes[i] <= ref)
    ensures CutFirst(prefixes, ref) == ref
  {
    if prefixes != [] {
      CutFirstNone(prefixes[1..], ref);
    }
  }

  lemma {:induction false} FindFirstMatch(prefixes: seq<string>, ref: string, k: nat) returns (i: nat)
    requires k < |prefixes| && prefixes[k] <= ref
    ensures FirstMatch(prefixes, ref, i) && i <= k
  {
    i := k;
    if j :| 0 <= j < k && prefixes[j] <= ref {
      i := FindFirstMatch(prefixes, ref, j);
    }
  }

  /** Which prefix of `ref` canonicalizing cuts, when it has some. */
  lemma CutPrefix(ref: string, p: string) returns (i: nat)
    requires p in HUB_PREFIXES && p <= ref
    ensures FirstMatch(HUB_PREFIXES, ref, i) && CanonicalRef(ref) == ref[|HUB_PREFIXES[i]|..]
  {
    var k :| 0 <= k < |HUB_PREFIXES| && HUB_PREFIXES[k] == p;
    i := FindFirstMatch(HUB_PREFIXES, ref, k);
    CutFirstAt(HUB_PREFIXES, ref, i);
  }

  lemma CanonicalOfPlain(ref: string)
    ensures CanonicalRef(ref) == ref <==> !HasHubPrefix(ref)
    ensures |CanonicalRef(ref)| <= |ref|
  {
    if HasHubPrefix(ref) {
      var k :| 0 <= k < |HUB_PREFIXES| && HUB_PREFIXES[k] <= ref;
      var i := CutPrefix(ref, HUB_PREFIXES[k]);
      HubPrefixShape(HUB_PREFIXES[i]);
    } else {
      CutFirstNone(HUB_PREFIXES, ref);
    }
  }

  /** Which prefix is cut when `p` and `q` both fit: the longer, listed first. */
  lemma PrefixOverlap(ref: string, i: nat, p: string)
    requires FirstMatch(HUB_PREFIXES, ref, i) && p in HUB_PREFIXES && p <= ref && p != HUB_PREFIXES[i]
    ensures HUB_PREFIXES[i] == p + "library/"
  {
    assert HUB_PREFIXES[i][0] == ref[0] == p[0];
    assert "docker.io/library/" == "docker.io/" + "library/";
    assert "index.docker.io/library/" == "index.docker.io/" + "library/";
  }

  lemma JoinedPrefixes(p: string, q: string)
    requires p in HUB_PREFIXES && q in HUB_PREFIXES && p + q in HUB_PREFIXES
    ensures q == "library/"
  {
    assert (p + q)[|p|] == q[0];
    assert (p + q)[0] == p[0];
  }

  lemma PrefixOfJoin(p: string, q: string, x: string)
    ensures p + q <= p + x <==> q <= x
  {
    assert (p + x)[|p|..] == x;
    if q <= x {
      assert p + q + x[|q|..] == p + x;
    }
  }

  /** Every spelling of a Docker Hub name has the same canonical form. */
  lemma CanonicalStrips(p: string, x: string)
    requires p in HUB_PREFIXES && !HasHubPrefix(x)
    ensures CanonicalRef(p + x) == x
  {
    var i := CutPrefix(p + x, p);
    if HUB_PREFIXES[i] != p {
      PrefixOverlap(p + x, i, p);
      PrefixOfJoin(p, HUB_PREFIXES[4], x);
      assert false;
    }
  }

  lemma SuffixKeepsPrefix(p: string, ref: string, suffix: string)
    requires p in HUB_PREFIXES && '/' !in suffix
    ensures p <= ref + suffix <==> p <= ref
    ensures p <= ref ==> (ref + suffix)[|p|..] == ref[|p|..] + suffix
  {
    HubPrefixShape(p);
    if |ref| < |p| <= |ref + suffix| {
      assert (ref + suffix)[|p| - 1] == suffix[|p| - 1 - |ref|];
    }
  }

  lemma {:induction false} CutFirstSuffix(prefixes: seq<string>, ref: string, suffix: string)
    requires forall i :: 0 <= i < |prefixes| ==> prefixes[i] in HUB_PREFIXES
    requires '/' !in suffix
    ensures CutFirst(prefixes, ref + suffix) == CutFirst(prefixes, ref) + suffix
  {
    if prefixes != [] {
      var p := prefixes[0];
      SuffixKeepsPrefix(p, ref, suffix);
      if !(p <= ref) {
        CutFirstSuffix(prefixes[1..], ref, suffix);
      }
    }
  }

  /** Tagging and canonicalizing commute. */
  lemma CanonicalOfTagged(ref: string, suffix: string)
    requires '/' !in suffix
    ensures CanonicalRef(ref + suffix) == CanonicalRef(ref) + suffix
  {
    CutFirstSuffix(HUB_PREFIXES, ref, suffix);
  }

  lemma LongerFirst(i: nat, j: nat)
    requires i < |HUB_PREFIXES| && j < |HUB_PREFIXES| && HUB_PREFIXES[j] == HUB_PREFIXES[i] + "library/"
    ensures j < i
  {
    assert HUB_PREFIXES[j][0] == HUB_PREFIXES[i][0];
  }

  lemma TwoPrefixes(ref: string, i: nat, n: nat)
    requires FirstMatch(HUB_PREFIXES, ref, i) && n < |HUB_PREFIXES|
    requires HUB_PREFIXES[i] + HUB_PREFIXES[n] <= ref
    ensures HUB_PREFIXES[i] + HUB_PREFIXES[n] !in HUB_PREFIXES
  {
    var p, q := HUB_PREFIXES[i], HUB_PREFIXES[n];
    if j :| 0 <= j < |HUB_PREFIXES| && HUB_PREFIXES[j] == p + q {
      JoinedPrefixes(p, q);
      LongerFirst(i, j);
      assert false;
    }
  }

  lemma HiddenPrefix(ref: string)
    requires HasHubPrefix(CanonicalRef(ref))
    ensures DoublyPrefixed(ref)
  {
    var c := CanonicalRef(ref);
    CanonicalOfPlain(ref);
    var n :| 0 <= n < |HUB_PREFIXES| && HUB_PREFIXES[n] <= c;
    var k :| 0 <= k < |HUB_PREFIXES| && HUB_PREFIXES[k] <= ref;
    var i := CutPrefix(ref, HUB_PREFIXES[k]);
    assert ref == HUB_PREFIXES[i] + c;
    PrefixOfJoin(HUB_PREFIXES[i], HUB_PREFIXES[n], c);
    TwoPrefixes(ref, i, n);
  }

  lemma ThirdPrefix(ref: string, p: string, q: string)
    requires p in HUB_PREFIXES && q in HUB_PREFIXES && p + q <= ref && p + "library/" <= ref
    ensures q == "library/"
  {
    assert q[0] == ref[|p|] == 'l';
  }

  lemma SecondPrefix(ref: string, p: string, q: string)
    requires p in HUB_PREFIXES && q in HUB_PREFIXES && p + q !in HUB_PREFIXES && p + q <= ref
    ensures HasHubPrefix(CanonicalRef(ref))
  {
    assert p <= p + q;
    var i := CutPrefix(ref, p);
    var n :| 0 <= n < |HUB_PREFIXES| && HUB_PREFIXES[n] == q;
    if HUB_PREFIXES[i] != p {
      PrefixOverlap(ref, i, p);
      ThirdPrefix(ref, p, q);
      assert false;
    }
    assert ref == p + ref[|p|..];
    PrefixOfJoin(p, q, ref[|p|..]);
    assert HUB_PREFIXES[n] <= CanonicalRef(ref);
  }

  /** The five prefixes, the longer before the shorter. */
  lemma CanonicalByCases(ref: string)
    ensures CanonicalRef(ref) ==
      if "docker.io/library/" <= ref then ref[18..]
      else if "index.docker.io/library/" <= ref then ref[24..]
      else if "docker.io/" <= ref then ref[10..]
      else if "index.docker.io/" <= ref then ref[16..]
      else if "library/" <= ref then ref[8..]
      else ref
  {
    var h1, h2 := HUB_PREFIXES[1..], HUB_PREFIXES[2..];
    var h3, h4 := HUB_PREFIXES[3..], HUB_PREFIXES[4..];
    assert h4[1..] == [] && CutFirst(h4, ref) == if "library/" <= ref then ref[8..] else ref;
    assert h3[1..] == h4 && CutFirst(h3, ref) == if "index.docker.io/" <= ref then ref[16..] else CutFirst(h4, ref);
    assert h2[1..] == h3 && CutFirst(h2, ref) == if "docker.io/" <= ref then ref[10..] else CutFirst(h3, ref);
    assert h1[1..] == h2;
    assert CutFirst(h1, ref) == if "index.docker.io/library/" <= ref then ref[24..] else CutFirst(h2, ref);
  }

  lemma ColonKeepsPrefix(p: string, ref: string, rest: string)
    requires p in HUB_PREFIXES
    ensures p <= ref + ":" + rest <==> p <= ref
    ensures p <= ref ==> (ref + ":" + rest)[|p|..] == ref[|p|..] + ":" + rest
  {
    HubPrefixShape(p);
    var tagged := ref + ":" + rest;
    assert tagged[|ref|] == ':';
    assert p <= tagged && |ref| < |p| ==> ':' in p;
  }

  lemma {:induction false} CutFirstColon(prefixes: seq<string>, ref: string, rest: string)
    requires forall i :: 0 <= i < |prefixes| ==> prefixes[i] in HUB_PREFIXES
    ensures CutFirst(prefixes, ref + ":" + rest) == CutFirst(prefixes, ref) + ":" + rest
  {
    if prefixes != [] {
      ColonKeepsPrefix(prefixes[0], ref, rest);
      if !(prefixes[0] <= ref) {
        CutFirstColon(prefixes[1..], ref, rest);
      }
    }
  }

  /** Canonicalizing and appending any tag commute, whatever characters the tag has. */
  lemma CanonicalOfColon(ref: string, tag: string)
    ensures CanonicalRef(ref + ":" + tag) == CanonicalRef(ref) + ":" + tag
  {
    CutFirstColon(HUB_PREFIXES, ref, tag);
  }

  /** Canonicalizing twice changes nothing exactly when no Hub prefix hides behind another. */
  lemma CanonicalIdempotent(ref: string)
    ensures CanonicalRef(CanonicalRef(ref)) == CanonicalRef(ref) <==> !DoublyPrefixed(ref)
  {
    var c := CanonicalRef(ref);
    CanonicalOfPlain(c);
    if HasHubPrefix(c) {
      CanonicalOfPlain(ref);
      HiddenPrefix(ref);
    } else if DoublyPrefixed(ref) {
      var p, q :| p in HUB_PREFIXES && q in HUB_PREFIXES && p + q !in HUB_PREFIXES && p + q <= ref;
      SecondPrefix(ref, p, q);
      assert false;
    }
  }

  lemma CanonicalNotIdempotent()
    ensures CanonicalRef("docker.io/library/library/x") == "library/x"
    ensures CanonicalRef("library/x") == "x"
  {
    assert "docker.io/library/library/x"[..18] == "docker.io/library/";
    assert "docker.io/library/library/x"[18..] == "library/x";
    assert FirstMatch(HUB_PREFIXES, "docker.io/library/library/x", 0);
    CutFirstAt(HUB_PREFIXES, "docker.io/library/library/x", 0);
    assert "library/x"[..8] == "library/";
    assert FirstMatch(HUB_PREFIXES, "library/x", 4);
    CutFirstAt(HUB_PREFIXES, "library/x", 4);
  }

  /** The store invariant: what every pull records. */
  predicate Inv(m: map<string, Record>) { KeyedByRef(m) && Tagged(m) }

  lemma TagSurvives(ref: string)
    ensures ':' in CanonicalRef(ref) <==> ':' in ref
    ensures '@' in CanonicalRef(ref) <==> '@' in ref
  {
    if HasHubPrefix(ref) {
      var k :| 0 <= k < |HUB_PREFIXES| && HUB_PREFIXES[k] <= ref;
      var i := CutPrefix(ref, HUB_PREFIXES[k]);
      var p := HUB_PREFIXES[i];
      HubPrefixShape(p);
      assert ref == p + ref[|p|..];
    } else {
      CanonicalOfPlain(ref);
    }
  }

  lemma PullKeepsInv(m: map<string, Record>, fromImage: string, tag: string, now: int)
    requires Inv(m)
    ensures Inv(Pulled(m, fromImage, tag, now))
  {
    var ref := BuildRef(fromImage, tag);
    assert ref != fromImage ==> ref[|fromImage|] == ':';
    TagSurvives(ref);
  }

  datatype Request = PullImage(fromImage: string, tag: string, now: int) | RemoveImage(name: string)

  /** What a request to pull or remove an image does to the store. */
  ghost function Serve(digest: string -> string, m: map<string, Record>, req: Request): map<string, Record>
  {
    match req
    case PullImage(fromImage, tag, now) => if fromImage == "" then m else Pulled(m, fromImage, tag, now)
    case RemoveImage(name) =>
      match Lookup(digest, m, name)
      case Some(r) => m - {r.Ref}
      case None => m
  }

  /** The store after a sequence of requests. */
  ghost function Served(digest: string -> string, reqs: seq<Request>): map<string, Record>
  {
    if reqs == [] then map[] else Serve(digest, Served(digest, reqs[..|reqs| - 1]), reqs[|reqs| - 1])
  }

  /** Every store the daemon can get into is keyed by reference, and every reference has a tag or a digest. */
  lemma {:induction false} ServedKeepsInv(digest: string -> string, reqs: seq<Request>)
    ensures Inv(Served(digest, reqs))
  {
    if reqs != [] {
      var before, last := Served(digest, reqs[..|reqs| - 1]), reqs[|reqs| - 1];
      ServedKeepsInv(digest, reqs[..|reqs| - 1]);
      if last.PullImage? {
        PullKeepsInv(before, last.fromImage, last.tag, last.now);
      }
    }
  }

  /** A pulled image is found under every spelling of the reference that was pulled. */
  lemma PulledIsFoundByRef(
      digest: string -> string, m: map<string, Record>, fromImage: string, tag: string, now: int, name: string)
    requires fromImage != "" && name != "" && CanonicalRef(name) == CanonicalRef(BuildRef(fromImage, tag))
    ensures Lookup(digest, Pulled(m, fromImage, tag, now), name) == Some(Pull(CanonicalRef(name), tag, now))
  {
  }

  /** What a pull records, by reference: the tag, `latest` without one, and with a digest nothing but the digest. */
  lemma PulledRef(m: map<string, Record>, fromImage: string, tag: string, now: int)
    ensures var key :=
        if '@' in fromImage then CanonicalRef(fromImage)
        else CanonicalRef(fromImage) + ":" + if tag == "" then "latest" else tag;
      Pulled(m, fromImage, tag, now) == m[key := Pull(key, tag, now)]
  {
    CanonicalOfColon(fromImage, tag);
    CanonicalOfColon(fromImage, "latest");
    assert fromImage + ":latest" == fromImage + ":" + "latest";
  }

  /** An image pulled with a tag is found with that tag. */
  lemma TaggedPullIsFound(digest: string -> string, m: map<string, Record>, fromImage: string, tag: string, now: int)
    requires fromImage != "" && tag != "" && '@' !in fromImage
    ensures Lookup(digest, Pulled(m, fromImage, tag, now), fromImage + ":" + tag) ==
      Some(Pull(CanonicalRef(fromImage) + ":" + tag, tag, now))
  {
    PulledRef(m, fromImage, tag, now);
    CanonicalOfColon(fromImage, tag);
  }

  /** Pulls of two tags are two images, and both are found. */
  lemma TwoTags(
      digest: string -> string, m: map<string, Record>, fromImage: string,
      tag: string, now: int, tag': string, now': int)
    requires fromImage != "" && '@' !in fromImage && tag != "" && tag' != "" && tag != tag'
    ensures var m' := Pulled(Pulled(m, fromImage, tag, now), fromImage, tag', now');
      && Lookup(digest, m', fromImage + ":" + tag) == Some(Pull(CanonicalRef(fromImage) + ":" + tag, tag, now))
      && Lookup(digest, m', fromImage + ":" + tag') == Some(Pull(CanonicalRef(fromImage) + ":" + tag', tag', now'))
  {
    var ref := CanonicalRef(fromImage);
    PulledRef(m, fromImage, tag, now);
    PulledRef(Pulled(m, fromImage, tag, now), fromImage, tag', now');
    CanonicalOfColon(fromImage, tag);
    CanonicalOfColon(fromImage, tag');
    assert (ref + ":" + tag)[|ref| + 1..] == tag && (ref + ":" + tag')[|ref| + 1..] == tag';
  }

  /** The record of `k` is what the digits `p` of an image ID determine. */
  predicate DeterminesById(digest: string -> string, m: map<string, Record>, p: string, k: string)
  {
    && |p| >= 4
    && (forall i :: 0 <= i < |p| ==> '0' <= p[i] <= '9' || 'a' <= p[i] <= 'f' || 'A' <= p[i] <= 'F')
    && forall j :: j in m ==> (p <= digest(j) <==> j == k)
  }

  lemma ByIdPrefixIff(digest: string -> string, m: map<string, Record>, name: string, p: string, k: string)
    requires KeyedByRef(m) && k in m
    requires name == "sha256:" + p || (name == p && !("sha256:" <= name))
    ensures ByIdPrefix(digest, m, name) == Some(m[k]) <==> DeterminesById(digest, m, p, k)
  {
    assert TrimPrefix(name, "sha256:") == p;
    if DeterminesById(digest, m, p, k) {
      assert Hits(digest, m, p) == {k};
    }
    if ByIdPrefix(digest, m, name) == Some(m[k]) {
      assert exists l :: Hits(digest, m, p) == {l};
      var l :| Hits(digest, m, p) == {l} && m[l] == m[k];
      assert m[l].Ref == l && m[k].Ref == k;
      forall j | j in m ensures p <= digest(j) <==> j == k {
        assert j in Hits(digest, m, p) <==> j == k;
      }
    }
  }

  lemma NoSlashNoPrefix(ref: string)
    requires '/' !in ref
    ensures CanonicalRef(ref) == ref
  {
    CanonicalOfTagged("", ref);
    assert "" + ref == ref;
    CanonicalOfPlain("");
  }

  /** Four or more hex digits find the image whose ID alone starts with them, unless they are also a pulled name. */
  lemma FoundByIdDigits(digest: string -> string, m: map<string, Record>, p: string, k: string)
    requires Inv(m) && k in m && p != "" && '/' !in p && !HasTagOrDigest(p)
    ensures Lookup(digest, m, p) == Some(m[k]) <==>
      if p + ":latest" in m then k == p + ":latest" else DeterminesById(digest, m, p, k)
  {
    NoSlashNoPrefix(p);
    assert "sha256:"[6] == ':';
    ByIdPrefixIff(digest, m, p, p, k);
    assert p + ":latest" in m ==> m[p + ":latest"].Ref == p + ":latest";
    assert m[k].Ref == k;
  }

  /** The same after `sha256:`, where no `:latest` is tried. */
  lemma FoundById(digest: string -> string, m: map<string, Record>, p: string, k: string)
    requires Inv(m) && k in m && '/' !in p
    ensures Lookup(digest, m, "sha256:" + p) == Some(m[k]) <==>
      if "sha256:" + p in m then k == "sha256:" + p else DeterminesById(digest, m, p, k)
  {
    var name := "sha256:" + p;
    NoSlashNoPrefix(name);
    assert name[6] == ':';
    ByIdPrefixIff(digest, m, name, p, k);
    assert name in m ==> m[name].Ref == name;
    assert m[k].Ref == k;
  }

  /** The ID that the daemon reports for an image finds that image, when no two recorded references share it. */
  lemma ReportedIdFinds(digest: string -> string, m: map<string, Record>, k: string)
    requires Inv(m) && k in m && Ids.IsDigest(digest) && Id(digest, m[k]) !in m
    requires forall j :: j in m && digest(j) == digest(k) ==> j == k
    ensures Lookup(digest, m, Id(digest, m[k])) == Some(m[k])
  {
    assert Ids.IsContainerID(digest(k));
    forall j | j in m ensures digest(k) <= digest(j) <==> j == k {
      assert Ids.IsContainerID(digest(j));
    }
    FoundById(digest, m, digest(k), k);
  }

  lemma UntaggedRef(fromImage: string)
    requires '@' !in fromImage
    ensures CanonicalRef(BuildRef(fromImage, "")) == CanonicalRef(fromImage) + ":latest"
  {
    CanonicalOfTagged(fromImage, ":latest");
  }

  lemma ByIdPrefixNeedsHex(digest: string -> string, m: map<string, Record>, name: string)
    requires ':' in name && !("sha256:" <= name)
    ensures ByIdPrefix(digest, m, name) == None
  {
    var i :| 0 <= i < |name| && name[i] == ':';
  }

  /** `ref` is also the prefix of an image ID, and of no recorded image's but that of `ref:latest`. */
  predicate IsItsOwnId(digest: string -> string, m: map<string, Record>, ref: string)
  {
    && "sha256:" <= ref && |ref| >= 11 && IsHex(ref[7..])
    && Hits(digest, m, ref[7..]) == {ref + ":latest"}
  }

  lemma ColonNeedsId(digest: string -> string, m: map<string, Record>, ref: string)
    requires ':' in ref && ref + ":latest" in m && KeyedByRef(m)
    ensures ByIdPrefix(digest, m, ref) == Some(m[ref + ":latest"]) <==> IsItsOwnId(digest, m, ref)
  {
    if "sha256:" <= ref {
      var prefix := ref[7..];
      if k :| Hits(digest, m, prefix) == {k} {
        assert k in Hits(digest, m, prefix);
        assert Hits(digest, m, prefix) == {ref + ":latest"} <==> k == ref + ":latest";
      }
    } else {
      ByIdPrefixNeedsHex(digest, m, ref);
    }
  }

  /**
   * An image pulled without a tag is found again by the name it was pulled by exactly when that name carries a digest
   * or, canonicalized, no colon: a registry port hides the `:latest` the pull added. The one exception is a name that
   * happens to be the ID of the image it stands for.
   */
  lemma UntaggedPullIsFound(digest: string -> string, m: map<string, Record>, fromImage: string, now: int)
    requires Inv(m) && fromImage != ""
    ensures var m', ref := Pulled(m, fromImage, "", now), CanonicalRef(fromImage);
      Lookup(digest, m', fromImage) == Some(m'[CanonicalRef(BuildRef(fromImage, ""))])
      <==> '@' in fromImage || ':' !in ref || (ref !in m && IsItsOwnId(digest, m', ref))
  {
    var ref := CanonicalRef(fromImage);
    var m' := Pulled(m, fromImage, "", now);
    PullKeepsInv(m, fromImage, "", now);
    TagSurvives(fromImage);
    if '@' !in fromImage {
      UntaggedRef(fromImage);
      assert ref != ref + ":latest";
      if ':' in ref {
        assert ref in m' <==> ref in m;
        assert ref in m' ==> m'[ref].Ref == ref;
        ColonNeedsId(digest, m', ref);
      }
    }
  }

  /** Pulled as `docker.io/library/x`, found as `x`, and the other way round. */
  lemma HubAliases(digest: string -> string, m: map<string, Record>, p: string, q: string, x: string, now: int)
    requires Inv(m) && p in HUB_PREFIXES + [""] && q in HUB_PREFIXES + [""]
    requires x != "" && !HasHubPrefix(x) && !HasTagOrDigest(x)
    ensures Lookup(digest, Pulled(m, p + x, "", now), q + x) == Some(Pull(x + ":latest", "", now))
  {
    forall r | r in HUB_PREFIXES + [""] ensures CanonicalRef(r + x) == x {
      if r == "" {
        assert r + x == x;
        CanonicalOfPlain(x);
      } else {
        CanonicalStrips(r, x);
      }
    }
    TagSurvives(p + x);
    UntaggedRef(p + x);
  }

  /** A recorded reference is found by itself when it has no Hub prefix left. */
  lemma ListedIsFound(digest: string -> string, m: map<string, Record>, key: string)
    requires Inv(m) && key in m && !HasHubPrefix(key)
    ensures Lookup(digest, m, key) == Some(m[key])
  {
    CanonicalOfPlain(key);
  }

  /** Removing what a name stands for leaves every other record where an exact lookup finds it. */
  lemma OthersStayFound(digest: string -> string, m: map<string, Record>, name: string, other: string)
    requires Inv(m) && other in m && !HasHubPrefix(other)
    requires Lookup(digest, m, name).Some? && Lookup(digest, m, name).value.Ref != other
    ensures var m' := m - {Lookup(digest, m, name).value.Ref}; Inv(m') && Lookup(digest, m', other) == Some(m[other])
  {
    ListedIsFound(digest, m - {Lookup(digest, m, name).value.Ref}, other);
  }
}
