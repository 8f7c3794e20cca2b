/** internal/podspec/name.go: from Docker names and image references to pod names. */
module Names {
  import opened Common

  const MAX_NAME_LEN := 63

  predicate IsAlnum(c: char) { 'a' <= c <= 'z' || '0' <= c <= '9' }

  predicate IsHexDigit(c: char) { 'a' <= c <= 'f' || '0' <= c <= '9' }

  predicate IsHex(s: string) { forall i :: 0 <= i < |s| ==> IsHexDigit(s[i]) }

  /** `unicode.ToLower`, of which only this matters: lowercase letters, digits and dashes are kept. */
  type Lowering = f: char -> char | forall c :: IsAlnum(c) || c == '-' ==> f(c) == c
    witness (c: char) => c

  function ToLower(lower: Lowering, s: string): (r: string)
    ensures |r| == |s|
    ensures forall i :: 0 <= i < |s| ==> r[i] == lower(s[i])
  {
    seq(|s|, i requires 0 <= i < |s| => lower(s[i]))
  }

  // ---- SanitizeName, step by step ----

  function SkipSeparators(s: string): (r: string)
    ensures |r| <= |s|
    ensures s != "" && !IsAlnum(s[0]) ==> |r| < |s|
    ensures r != "" ==> IsAlnum(r[0])
  {
    if s == "" || IsAlnum(s[0]) then s else SkipSeparators(s[1..])
  }

  /** `nonAlnum.ReplaceAllString(s, "-")`: every maximal run of other characters becomes one dash. */
  function ReplaceRuns(s: string): string
    decreases |s|
  {
    if s == "" then ""
    else if IsAlnum(s[0]) then [s[0]] + ReplaceRuns(s[1..])
    else "-" + ReplaceRuns(SkipSeparators(s))
  }

  function TrimLeft(s: string): string
  {
    if s != "" && s[0] == '-' then TrimLeft(s[1..]) else s
  }

  function TrimRight(s: string): (r: string)
    ensures |r| <= |s|
  {
    if s != "" && s[|s| - 1] == '-' then TrimRight(s[..|s| - 1]) else s
  }

  function CutToLabel(s: string): string
  {
    if |s| > MAX_NAME_LEN then TrimRight(s[..MAX_NAME_LEN]) else s
  }

  /** `random` stands for the eight characters crypto/rand supplies for an empty name. */
  function SanitizeName(lower: Lowering, input: string, random: string): Result<string, string>
  {
    if input == "" then Ok("dink-" + random)
    else
      var out := CutToLabel(TrimRight(TrimLeft(ReplaceRuns(ToLower(lower, input)))));
      if out == "" then Err(input) else Ok(out)
  }

  // ---- the specification: alphanumeric runs joined by dashes ----

  function AlnumPrefix(s: string): (w: string)
    ensures w <= s
    ensures forall i :: 0 <= i < |w| ==> IsAlnum(w[i])
    ensures |w| < |s| ==> !IsAlnum(s[|w|])
    ensures s != "" && IsAlnum(s[0]) ==> w != ""
  {
    if s == "" || !IsAlnum(s[0]) then "" else [s[0]] + AlnumPrefix(s[1..])
  }

  /** The maximal alphanumeric runs of `s`, in order. */
  function Runs(s: string): seq<string>
    decreases |s|
  {
    if s == "" then []
    else if !IsAlnum(s[0]) then Runs(s[1..])
    else [AlnumPrefix(s)] + Runs(s[|AlnumPrefix(s)|..])
  }

  function JoinDash(ws: seq<string>): string
  {
    if |ws| == 0 then "" else if |ws| == 1 then ws[0] else ws[0] + "-" + JoinDash(ws[1..])
  }

  /** Lowercase letters, digits and single inner dashes. */
  predicate IsClean(s: string)
  {
    && s != ""
    && (forall i :: 0 <= i < |s| ==> IsAlnum(s[i]) || s[i] == '-')
    && IsAlnum(s[0]) && IsAlnum(s[|s| - 1])
    && (forall i :: 0 <= i < |s| - 1 ==> IsAlnum(s[i]) || IsAlnum(s[i + 1]))
  }

  /** An RFC 1123 section 2.1 label as Kubernetes restricts it, without double dashes. */
  predicate IsLabel(s: string) { IsClean(s) && |s| <= MAX_NAME_LEN }

  predicate HasAlnum(s: string) { exists i :: 0 <= i < |s| && IsAlnum(s[i]) }

  lemma {:induction false} RunsSkip(s: string)
    ensures Runs(SkipSeparators(s)) == Runs(s)
  {
    if s != "" && !IsAlnum(s[0]) { RunsSkip(s[1..]); }
  }

  lemma {:induction false} ReplacePrefix(w: string, rest: string)
    requires forall i :: 0 <= i < |w| ==> IsAlnum(w[i])
    ensures ReplaceRuns(w + rest) == w + ReplaceRuns(rest)
  {
    if w == "" {
      assert w + rest == rest;
    } else {
      assert (w + rest)[1..] == w[1..] + rest;
      ReplacePrefix(w[1..], rest);
    }
  }

  lemma {:induction false} TrimRightConcat(a: string, b: string)
    requires TrimRight(b) != "" || (a != "" && a[|a| - 1] != '-')
    ensures TrimRight(a + b) == a + TrimRight(b)
  {
    if b != "" && b[|b| - 1] == '-' {
      assert (a + b)[..|a + b| - 1] == a + b[..|b| - 1];
      TrimRightConcat(a, b[..|b| - 1]);
    } else if b == "" {
      assert a + b == a;
    }
  }

  /** The first run, and what follows the separators after it. */
  lemma FirstRun(s: string)
    requires s != "" && IsAlnum(s[0])
    ensures Runs(s) == [AlnumPrefix(s)] + Runs(SkipSeparators(s[|AlnumPrefix(s)|..]))
  {
    RunsSkip(s[|AlnumPrefix(s)|..]);
  }

  lemma FirstReplaced(w: string, rest: string)
    requires forall i :: 0 <= i < |w| ==> IsAlnum(w[i])
    requires rest != "" ==> !IsAlnum(rest[0])
    ensures ReplaceRuns(w + rest) == if rest == "" then w else w + ("-" + ReplaceRuns(SkipSeparators(rest)))
  {
    ReplacePrefix(w, rest);
  }

  lemma TrimAfterRun(w: string, r: string)
    requires w != "" && w[|w| - 1] != '-'
    requires TrimRight(r) != ""
    ensures TrimRight(w + ("-" + r)) == w + ("-" + TrimRight(r))
    ensures TrimRight(w + "-") == w && TrimRight(w) == w
  {
    TrimRightConcat("-", r);
    TrimRightConcat(w, "-" + r);
    assert TrimRight("-") == "";
    TrimRightConcat(w, "-");
  }

  lemma JoinMore(w: string, ws: seq<string>)
    ensures JoinDash([w] + ws) == if ws == [] then w else w + ("-" + JoinDash(ws))
  {
    assert ([w] + ws)[1..] == ws;
  }

  /** On text that starts with a letter or digit, replacing then right-trimming is joining the runs. */
  lemma {:induction false} ReplaceIsJoin(s: string)
    requires s != "" && IsAlnum(s[0])
    ensures TrimRight(ReplaceRuns(s)) == JoinDash(Runs(s)) != ""
    ensures Runs(s) != [] && ReplaceRuns(s) != "" && ReplaceRuns(s)[0] == s[0]
    decreases |s|
  {
    var w := AlnumPrefix(s);
    var rest := s[|w|..];
    var u := SkipSeparators(rest);
    assert s == w + rest;
    FirstRun(s);
    FirstReplaced(w, rest);
    JoinMore(w, Runs(u));
    if u != "" {
      ReplaceIsJoin(u);
      TrimAfterRun(w, ReplaceRuns(u));
    } else {
      TrimAfterRun(w, "x");
    }
  }

  lemma {:induction false} NoRuns(s: string)
    ensures Runs(s) == [] <==> !HasAlnum(s)
    decreases |s|
  {
    if s != "" && !IsAlnum(s[0]) {
      NoRuns(s[1..]);
      if HasAlnum(s) {
        var i :| 0 <= i < |s| && IsAlnum(s[i]);
        assert IsAlnum(s[1..][i - 1]);
      }
    }
  }

  /** Cleaning any text leaves exactly its alphanumeric runs, joined by single dashes. */
  lemma TrimmedIsJoin(s: string)
    ensures TrimRight(TrimLeft(ReplaceRuns(s))) == JoinDash(Runs(s))
  {
    var u := SkipSeparators(s);
    RunsSkip(s);
    if u == "" {
      assert ReplaceRuns(s) == "" || ReplaceRuns(s) == "-";
      assert TrimLeft("-") == "";
    } else {
      ReplaceIsJoin(u);
      if !IsAlnum(s[0]) {
        assert ReplaceRuns(s) == "-" + ReplaceRuns(u);
        assert ReplaceRuns(s)[1..] == ReplaceRuns(u);
      }
    }
  }

  lemma {:induction false} JoinIsClean(s: string)
    requires Runs(s) != []
    ensures IsClean(JoinDash(Runs(s)))
    decreases |s|
  {
    if !IsAlnum(s[0]) {
      JoinIsClean(s[1..]);
    } else {
      var w := AlnumPrefix(s);
      var rest := s[|w|..];
      if Runs(rest) != [] {
        JoinIsClean(rest);
        assert Runs(s)[1..] == Runs(rest);
        var j := JoinDash(Runs(rest));
        var all := w + "-" + j;
        assert forall i :: 0 <= i < |all| ==>
          all[i] == if i < |w| then w[i] else if i == |w| then '-' else j[i - |w| - 1];
      } else {
        assert Runs(s) == [w];
      }
    }
  }

  lemma {:induction false} TrimRightClean(s: string)
    requires s != "" && IsAlnum(s[0])
    requires forall i :: 0 <= i < |s| ==> IsAlnum(s[i]) || s[i] == '-'
    requires forall i :: 0 <= i < |s| - 1 ==> IsAlnum(s[i]) || IsAlnum(s[i + 1])
    ensures IsClean(TrimRight(s))
  {
    if s[|s| - 1] == '-' { TrimRightClean(s[..|s| - 1]); }
  }

  lemma CutIsLabel(s: string)
    requires IsClean(s)
    ensures IsLabel(CutToLabel(s))
  {
    if |s| > MAX_NAME_LEN { TrimRightClean(s[..MAX_NAME_LEN]); }
  }

  /**
   * SanitizeName on a non-empty name: it fails exactly when the lowercased name has no letter or digit,
   * and otherwise returns the runs joined by dashes, cut to 63 and right-trimmed, which is a label.
   */
  lemma SanitizeNameSpec(lower: Lowering, input: string, random: string)
    requires input != ""
    ensures SanitizeName(lower, input, random) ==
            if HasAlnum(ToLower(lower, input)) then Ok(CutToLabel(JoinDash(Runs(ToLower(lower, input)))))
            else Err(input)
    ensures forall name :: SanitizeName(lower, input, random) == Ok(name) ==> IsLabel(name)
  {
    var s := ToLower(lower, input);
    TrimmedIsJoin(s);
    NoRuns(s);
    if HasAlnum(s) {
      JoinIsClean(s);
      CutIsLabel(JoinDash(Runs(s)));
    }
  }

  /** Labels, character by character. */
  lemma LabelCharacters(s: string)
    ensures IsLabel(s) <==>
      && 1 <= |s| <= 63
      && (forall i :: 0 <= i < |s| ==> 'a' <= s[i] <= 'z' || '0' <= s[i] <= '9' || s[i] == '-')
      && s[0] != '-' && s[|s| - 1] != '-'
      && forall i :: 0 <= i < |s| - 1 ==> !(s[i] == '-' && s[i + 1] == '-')
  {
  }

  lemma {:induction false} SeparatorsSkipped(sep: string, rest: string)
    requires forall i :: 0 <= i < |sep| ==> !IsAlnum(sep[i])
    ensures Runs(sep + rest) == Runs(rest)
  {
    if sep == "" {
      assert sep + rest == rest;
    } else {
      assert (sep + rest)[1..] == sep[1..] + rest;
      SeparatorsSkipped(sep[1..], rest);
    }
  }

  lemma {:induction false} PrefixOfText(w: string, rest: string)
    requires forall i :: 0 <= i < |w| ==> IsAlnum(w[i])
    requires rest == "" || !IsAlnum(rest[0])
    ensures AlnumPrefix(w + rest) == w
  {
    if w == "" {
      assert w + rest == rest;
    } else {
      assert (w + rest)[1..] == w[1..] + rest;
      PrefixOfText(w[1..], rest);
    }
  }

  /** How a text falls into runs: at the first separators, wherever they are. */
  lemma RunsOfText(w: string, sep: string, rest: string)
    requires w != "" && forall i :: 0 <= i < |w| ==> 'a' <= w[i] <= 'z' || '0' <= w[i] <= '9'
    requires sep != "" && forall i :: 0 <= i < |sep| ==> !('a' <= sep[i] <= 'z') && !('0' <= sep[i] <= '9')
    ensures Runs("") == [] && Runs(w) == [w]
    ensures Runs(sep + rest) == Runs(rest) && Runs(w + (sep + rest)) == [w] + Runs(rest)
  {
    SeparatorsSkipped(sep, rest);
    PrefixOfText(w, "");
    assert w + "" == w;
    PrefixOfText(w, sep + rest);
    assert (w + (sep + rest))[|w|..] == sep + rest;
  }

  lemma CutText(s: string)
    requires IsClean(s)
    ensures CutToLabel(s) == if |s| <= 63 then s else if s[62] == '-' then s[..62] else s[..63]
  {
    if |s| > 63 {
      var cut := s[..63];
      assert cut[62] == s[62];
      if s[62] == '-' {
        assert IsAlnum(s[61]);
        assert cut[..62] == s[..62] && s[..62][61] == s[61];
        assert TrimRight(cut) == TrimRight(s[..62]) == s[..62];
      }
    }
  }

  /** The result in characters: at most 63 of the joined runs, and never a dash at the cut. */
  lemma SanitizedText(lower: Lowering, input: string, random: string)
    requires input != ""
    ensures var s := ToLower(lower, input); var joined := JoinDash(Runs(s));
      SanitizeName(lower, input, random) ==
        if !exists i :: 0 <= i < |s| && ('a' <= s[i] <= 'z' || '0' <= s[i] <= '9') then Err(input)
        else if |joined| <= 63 then Ok(joined)
        else if joined[62] == '-' then Ok(joined[..62])
        else Ok(joined[..63])
  {
    var s := ToLower(lower, input);
    SanitizeNameSpec(lower, input, random);
    NoRuns(s);
    if Runs(s) != [] {
      JoinIsClean(s);
      CutText(JoinDash(Runs(s)));
    }
  }

  lemma {:induction false} ReplaceKeepsClean(s: string)
    requires forall i :: 0 <= i < |s| ==> IsAlnum(s[i]) || s[i] == '-'
    requires forall i :: 0 <= i < |s| - 1 ==> IsAlnum(s[i]) || IsAlnum(s[i + 1])
    ensures ReplaceRuns(s) == s
  {
    if s != "" {
      assert s == [s[0]] + s[1..];
      ReplaceKeepsClean(s[1..]);
      if !IsAlnum(s[0]) {
        assert SkipSeparators(s) == SkipSeparators(s[1..]) == s[1..];
      }
    }
  }

  lemma LowerKeepsLabel(lower: Lowering, name: string)
    requires IsLabel(name)
    ensures ToLower(lower, name) == name
  {
  }

  lemma LabelIsFixed(lower: Lowering, name: string, random: string)
    requires IsLabel(name)
    ensures SanitizeName(lower, name, random) == Ok(name)
  {
    LowerKeepsLabel(lower, name);
    ReplaceKeepsClean(name);
  }

  /** The names SanitizeName leaves alone are exactly the labels: so it is idempotent. */
  lemma FixedPoints(lower: Lowering, name: string, random: string)
    requires name != ""
    ensures SanitizeName(lower, name, random) == Ok(name) <==> IsLabel(name)
  {
    if IsLabel(name) {
      LabelIsFixed(lower, name, random);
    } else {
      SanitizeNameSpec(lower, name, random);
    }
  }

  lemma SanitizeIdempotent(lower: Lowering, input: string, random: string, random': string)
    requires SanitizeName(lower, input, random).Ok?
    requires |random| == 8 && IsHex(random)
    ensures var name := SanitizeName(lower, input, random).value;
            IsLabel(name) && SanitizeName(lower, name, random') == Ok(name)
  {
    var name := SanitizeName(lower, input, random).value;
    if input != "" {
      SanitizeNameSpec(lower, input, random);
    } else {
      assert forall i :: 0 <= i < |name| ==> name[i] == if i < 5 then "dink-"[i] else random[i - 5];
    }
    FixedPoints(lower, name, random');
  }

  // ---- GeneratedName ----

  function LastSlash(s: string): (i: nat)
    ensures i <= |s|
    ensures forall j :: i <= j < |s| ==> s[j] != '/'
    ensures i > 0 ==> s[i - 1] == '/'
  {
    if s == "" then 0 else if s[|s| - 1] == '/' then |s| else LastSlash(s[..|s| - 1])
  }

  function UpToTag(s: string): (r: string)
    ensures r <= s
    ensures forall i :: 0 <= i < |r| ==> r[i] != ':' && r[i] != '@'
    ensures |r| < |s| ==> s[|r|] == ':' || s[|r|] == '@'
  {
    if s == "" || s[0] == ':' || s[0] == '@' then "" else [s[0]] + UpToTag(s[1..])
  }

  /** "registry.example.com/library/redis:7.2" becomes "redis". */
  function ImageBase(image: string): string
  {
    UpToTag(image[LastSlash(image)..])
  }

  lemma LastSlashAt(path: string, rest: string)
    requires path == "" || path[|path| - 1] == '/'
    requires '/' !in rest
    ensures LastSlash(path + rest) == |path|
  {
    var s := path + rest;
    assert path != "" ==> s[|path| - 1] == '/';
    assert forall j :: |path| <= j < |s| ==> s[j] == rest[j - |path|] && s[j] in rest;
  }

  lemma {:induction false} UpToTagOf(base: string, tail: string)
    requires ':' !in base && '@' !in base
    requires tail == "" || tail[0] == ':' || tail[0] == '@'
    ensures UpToTag(base + tail) == base
  {
    if base == "" {
      assert base + tail == tail;
    } else {
      assert base[0] in base;
      assert (base + tail)[1..] == base[1..] + tail;
      UpToTagOf(base[1..], tail);
    }
  }

  /** The base of a reference is what stands between the last slash and the tag or digest. */
  lemma ImageBaseOf(path: string, base: string, tail: string)
    requires path == "" || path[|path| - 1] == '/'
    requires '/' !in base && ':' !in base && '@' !in base
    requires tail == "" || tail[0] == ':' || tail[0] == '@'
    requires '/' !in tail
    ensures ImageBase(path + (base + tail)) == base
  {
    LastSlashAt(path, base + tail);
    assert (path + (base + tail))[|path|..] == base + tail;
    UpToTagOf(base, tail);
  }

  function CleanedPrefix(lower: Lowering, image: string): string
  {
    match SanitizeName(lower, "dink-" + ImageBase(image), "")
    case Ok(clean) => clean
    case Err(_) => "dink"
  }

  /** `suffix` stands for the six characters crypto/rand supplies. */
  function GeneratedName(lower: Lowering, image: string, suffix: string): string
  {
    var full := CleanedPrefix(lower, image) + "-" + suffix;
    if |full| > MAX_NAME_LEN then full[..MAX_NAME_LEN] else full
  }

  lemma SanitizedIsLabel(lower: Lowering, input: string, random: string)
    requires input != ""
    ensures SanitizeName(lower, input, random).Ok? ==> IsLabel(SanitizeName(lower, input, random).value)
  {
    SanitizeNameSpec(lower, input, random);
  }

  lemma DinkIsLabel()
    ensures IsLabel("dink")
  {
  }

  lemma CleanedPrefixIsLabel(lower: Lowering, image: string)
    ensures IsLabel(CleanedPrefix(lower, image))
  {
    SanitizedIsLabel(lower, "dink-" + ImageBase(image), "");
    DinkIsLabel();
  }

  lemma AppendSuffix(clean: string, suffix: string)
    requires IsClean(clean) && suffix != "" && IsHex(suffix)
    ensures IsClean(clean + "-" + suffix)
  {
    var name := clean + "-" + suffix;
    assert forall i :: 0 <= i < |clean| ==> name[i] == clean[i];
    assert name[|clean|] == '-';
    assert forall i :: |clean| < i < |name| ==> name[i] == suffix[i - |clean| - 1];
    assert forall i :: 0 <= i < |suffix| ==> IsAlnum(suffix[i]);
  }

  lemma DinkPrefixIsLabel(image: string)
    requires 0 < |image| <= 58 && forall i :: 0 <= i < |image| ==> IsAlnum(image[i])
    ensures IsLabel("dink-" + image)
  {
    var prefix := "dink-" + image;
    assert forall i :: 5 <= i < |prefix| ==> prefix[i] == image[i - 5];
  }

  /** The name in characters: prefix, dash and suffix, cut to 63. */
  lemma GeneratedNameText(lower: Lowering, image: string, suffix: string)
    requires |suffix| == 6
    ensures var full := CleanedPrefix(lower, image) + "-" + suffix;
      && GeneratedName(lower, image, suffix) <= full
      && |GeneratedName(lower, image, suffix)| == if |full| < 63 then |full| else 63
  {
  }

  lemma KeptSuffix(lower: Lowering, image: string, suffix: string, kept: nat)
    requires |suffix| == 6 && |CleanedPrefix(lower, image)| <= 62
    requires kept == if |CleanedPrefix(lower, image)| <= 56 then 6 else 62 - |CleanedPrefix(lower, image)|
    ensures GeneratedName(lower, image, suffix) == CleanedPrefix(lower, image) + "-" + suffix[..kept]
  {
    var clean := CleanedPrefix(lower, image);
    assert (clean + "-" + suffix)[..|clean| + 1 + kept] == clean + "-" + suffix[..kept];
  }

  /** Different suffixes give different names as far as the cut leaves them different: always up to 56 characters. */
  lemma SuffixesDistinguish(lower: Lowering, image: string, suffix: string, suffix': string)
    requires |suffix| == |suffix'| == 6
    ensures var n := |CleanedPrefix(lower, image)|; var kept := if n <= 56 then 6 else 62 - n;
      GeneratedName(lower, image, suffix) == GeneratedName(lower, image, suffix')
      <==> kept <= 0 || suffix[..kept] == suffix'[..kept]
  {
    CleanedPrefixIsLabel(lower, image);
    var clean := CleanedPrefix(lower, image);
    if |clean| <= 62 {
      var kept := if |clean| <= 56 then 6 else 62 - |clean|;
      KeptSuffix(lower, image, suffix, kept);
      KeptSuffix(lower, image, suffix', kept);
      assert (clean + "-" + suffix[..kept])[|clean| + 1..] == suffix[..kept];
      assert (clean + "-" + suffix'[..kept])[|clean| + 1..] == suffix'[..kept];
    } else {
      assert GeneratedName(lower, image, suffix) == clean == GeneratedName(lower, image, suffix');
    }
  }

  /** The prefix is "dink-" and the image's base name, as SanitizeName cleans it: there is always something to clean. */
  lemma CleanedPrefixSpec(lower: Lowering, image: string)
    ensures SanitizeName(lower, "dink-" + ImageBase(image), "") == Ok(CleanedPrefix(lower, image))
  {
    var raw := "dink-" + ImageBase(image);
    SanitizeNameSpec(lower, raw, "");
    assert ToLower(lower, raw)[0] == 'd';
  }

  lemma TwoRuns(v: string, w: string)
    requires v != "" && forall i :: 0 <= i < |v| ==> 'a' <= v[i] <= 'z' || '0' <= v[i] <= '9'
    requires w != "" && forall i :: 0 <= i < |w| ==> 'a' <= w[i] <= 'z' || '0' <= w[i] <= '9'
    ensures JoinDash(Runs(v + ("-" + w))) == v + ("-" + w)
  {
    RunsOfText(v, "-", w);
    RunsOfText(w, "-", "");
    JoinMore(v, Runs(w));
    assert JoinDash([w]) == w;
  }

  /** Text that lowering keeps, starts with a letter or digit, and is its own runs joined. */
  lemma CutOnly(lower: Lowering, raw: string)
    requires raw != "" && IsAlnum(raw[0]) && ToLower(lower, raw) == raw && JoinDash(Runs(raw)) == raw
    ensures SanitizeName(lower, raw, "") ==
      Ok(if |raw| <= 63 then raw else if raw[62] == '-' then raw[..62] else raw[..63])
  {
    SanitizedText(lower, raw, "");
  }

  lemma LowerKeeps(lower: Lowering, s: string)
    requires forall i :: 0 <= i < |s| ==> IsAlnum(s[i]) || s[i] == '-'
    ensures ToLower(lower, s) == s
  {
  }

  lemma JoinedBase(lower: Lowering, v: string, base: string, raw: string)
    requires 0 < |v| < 62 && forall i :: 0 <= i < |v| ==> 'a' <= v[i] <= 'z' || '0' <= v[i] <= '9'
    requires base != "" && forall i :: 0 <= i < |base| ==> 'a' <= base[i] <= 'z' || '0' <= base[i] <= '9'
    requires raw == v + ("-" + base)
    ensures SanitizeName(lower, raw, "") == Ok(if |raw| <= 63 then raw else raw[..63])
  {
    assert forall i :: 0 <= i < |raw| ==>
      raw[i] == if i < |v| then v[i] else if i == |v| then '-' else base[i - |v| - 1];
    LowerKeeps(lower, raw);
    TwoRuns(v, base);
    CutOnly(lower, raw);
  }

  lemma DinkSplit(base: string)
    ensures "dink" + ("-" + base) == "dink-" + base
  {
    assert "dink-" == "dink" + "-";
  }

  lemma SanitizedDink(lower: Lowering, base: string)
    requires base != "" && forall i :: 0 <= i < |base| ==> 'a' <= base[i] <= 'z' || '0' <= base[i] <= '9'
    ensures SanitizeName(lower, "dink-" + base, "") ==
      Ok(if 5 + |base| <= 63 then "dink-" + base else ("dink-" + base)[..63])
  {
    DinkSplit(base);
    JoinedBase(lower, "dink", base, "dink" + ("-" + base));
  }

  /** For an image whose base name is made of letters and digits it is "dink-" and that name, at most 63 characters. */
  lemma CleanedPrefixText(lower: Lowering, path: string, base: string, tail: string)
    requires path == "" || path[|path| - 1] == '/'
    requires base != "" && forall i :: 0 <= i < |base| ==> 'a' <= base[i] <= 'z' || '0' <= base[i] <= '9'
    requires tail == "" || tail[0] == ':' || tail[0] == '@'
    requires '/' !in tail
    ensures var full := "dink-" + base;
      CleanedPrefix(lower, path + (base + tail)) == if |full| <= 63 then full else full[..63]
  {
    ImageBaseOf(path, base, tail);
    CleanedPrefixSpec(lower, path + (base + tail));
    SanitizedDink(lower, base);
  }

  /**
   * A generated name is a label, hence a fixed point of SanitizeName, except when the cleaned prefix has
   * exactly 62 characters: then the cut falls right after the dash.
   */
  lemma GeneratedNameIsLabel(lower: Lowering, image: string, suffix: string)
    requires |suffix| == 6 && IsHex(suffix)
    ensures var name := GeneratedName(lower, image, suffix);
            && 0 < |name| <= MAX_NAME_LEN
            && (IsLabel(name) <==> |CleanedPrefix(lower, image)| != 62)
            && (|CleanedPrefix(lower, image)| == 62 ==> name == CleanedPrefix(lower, image) + "-")
  {
    CleanedPrefixIsLabel(lower, image);
    var clean := CleanedPrefix(lower, image);
    var name := GeneratedName(lower, image, suffix);
    if |clean| == 63 {
      assert name == clean;
    } else if |clean| == 62 {
      assert name == clean + "-";
    } else {
      var kept := if |clean| > 56 then suffix[..62 - |clean|] else suffix;
      assert name == clean + "-" + kept;
      AppendSuffix(clean, kept);
    }
  }

  /** A --name with one dash at its end loses it. */
  lemma TrailingDashIsCut(lower: Lowering, base: string)
    requires 0 < |base| <= 58 && forall i :: 0 <= i < |base| ==> IsAlnum(base[i])
    ensures SanitizeName(lower, "dink-" + base + "-", "") == Ok("dink-" + base)
  {
    var clean, name := "dink-" + base, "dink-" + base + "-";
    DinkPrefixIsLabel(base);
    assert forall i :: 0 <= i < |name| ==> name[i] == if i < |clean| then clean[i] else '-';
    assert ToLower(lower, name) == name;
    ReplaceKeepsClean(name);
    assert name[..|name| - 1] == clean;
    assert TrimRight(name) == TrimRight(clean) == clean;
  }

  /** Such an image exists: 57 letters after "dink-" give a name that ends in a dash. */
  lemma GeneratedNameEndingInDash(lower: Lowering, image: string, suffix: string)
    requires |image| == 57 && forall i :: 0 <= i < |image| ==> IsAlnum(image[i])
    requires |suffix| == 6 && IsHex(suffix)
    ensures GeneratedName(lower, image, suffix) == "dink-" + image + "-"
    ensures !IsLabel(GeneratedName(lower, image, suffix))
  {
    assert "" + (image + "") == image;
    ImageBaseOf("", image, "");
    DinkPrefixIsLabel(image);
    LabelIsFixed(lower, "dink-" + image, "");
    GeneratedNameIsLabel(lower, image, suffix);
  }
}
