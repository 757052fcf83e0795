/**
  The `datetime_fourteen` pattern of packages/patterns.py, `^(\d{14}).*(\.[a-zA-Z0-9]+)$`,
  as Python's `re.match` applies it: group 1 is a 14-digit `YYYYMMDDHHMMSS` timestamp,
  group 2 the extension from the last dot, and the canonical name is group 1 + group 2.

  `MatchesAt` reads the regex off directly, one conjunct per piece; `Match` computes the
  groups by looking for the last dot. The lemmas show the two agree.
*/
module Patterns {
  import opened Wrappers

  /** Number of digits in the `YYYYMMDDHHMMSS` timestamp. */
  const StampLength: nat := 14

  /** `\d`, taken as the ASCII digits. */
  predicate IsDigit(c: char)
  {
    '0' <= c <= '9'
  }

  /** The class `[a-zA-Z0-9]`. */
  predicate IsAlnum(c: char)
  {
    'a' <= c <= 'z' || 'A' <= c <= 'Z' || IsDigit(c)
  }

  predicate AllDigits(s: string)
  {
    forall i :: 0 <= i < |s| ==> IsDigit(s[i])
  }

  predicate AllAlnum(s: string)
  {
    forall i :: 0 <= i < |s| ==> IsAlnum(s[i])
  }

  /** What `.*` can consume: `.` does not match a newline. */
  predicate NoNewline(s: string)
  {
    forall i :: 0 <= i < |s| ==> s[i] != '\n'
  }

  /** What group 2, `\.[a-zA-Z0-9]+`, can capture. */
  predicate IsExtension(s: string)
  {
    |s| >= 2 && s[0] == '.' && AllAlnum(s[1..])
  }

  /** The two groups of a successful match. */
  datatype FileGroups = FileGroups(stamp: string, ext: string)

  /** Without MULTILINE, `$` matches at the very end and just before one final newline. */
  predicate EndAnchor(name: string, e: nat)
  {
    e == |name| || (e + 1 == |name| && name[e] == '\n')
  }

  /**
    The pattern matches `name` with group 2 spanning [p, e): `^` and `(\d{14})` on the first
    14 characters, `.*` on [14, p), `(\.[a-zA-Z0-9]+)` on [p, e), and `$` at e.
  */
  predicate MatchesAt(name: string, p: nat, e: nat)
  {
    && EndAnchor(name, e)
    && StampLength <= p <= e
    && AllDigits(name[..StampLength])
    && NoNewline(name[StampLength..p])
    && IsExtension(name[p..e])
  }

  /** `re.match` succeeds on `name`. */
  ghost predicate Accepts(name: string)
  {
    exists p: nat, e: nat :: MatchesAt(name, p, e)
  }

  /** The text `$` closes over: `name` without one final newline. */
  function Body(name: string): (b: string)
    ensures EndAnchor(name, |b|)
    ensures b == name[..|b|]
  {
    if |name| > 0 && name[|name| - 1] == '\n' then name[..|name| - 1] else name
  }

  /** Position of the last `.` in `s`, if any. */
  function LastDot(s: string): (r: Option<nat>)
    ensures r.Some? ==> r.value < |s| && s[r.value] == '.'
    ensures r.Some? ==> forall i :: r.value < i < |s| ==> s[i] != '.'
    ensures r.None? ==> forall i :: 0 <= i < |s| ==> s[i] != '.'
  {
    if |s| == 0 then None
    else if s[|s| - 1] == '.' then Some(|s| - 1)
    else LastDot(s[..|s| - 1])
  }

  /**
    The groups `re.match(datetime_fourteen, name)` reports, or None when it does not match.
    Because `[a-zA-Z0-9]` excludes `.` and must reach `$`, group 2 starts at the last dot.
  */
  function Match(name: string): (r: Option<FileGroups>)
    ensures r.Some? ==> |name| >= StampLength + 2
    ensures r.Some? ==> r.value.stamp == name[..StampLength] && AllDigits(r.value.stamp)
    ensures r.Some? ==> IsExtension(r.value.ext)
    ensures r.Some? ==> |r.value.ext| <= |Body(name)| - StampLength
    ensures r.Some? ==> r.value.ext == Body(name)[|Body(name)| - |r.value.ext|..]
  {
    var body := Body(name);
    if |body| < StampLength || !AllDigits(body[..StampLength]) then None
    else match LastDot(body)
      case None => None
      case Some(p) =>
        if StampLength <= p && p + 1 < |body| && AllAlnum(body[p + 1..])
           && NoNewline(body[StampLength..p])
        then Some(FileGroups(body[..StampLength], body[p..]))
        else None
  }

  /** The canonical name: group 1 + group 2 when the pattern matches, the name itself otherwise. */
  function Canonicalize(name: string): (r: string)
    ensures Match(name).None? ==> r == name
    ensures Match(name).Some? ==>
              && StampLength + 2 <= |r| <= |Body(name)|
              && r[..StampLength] == name[..StampLength]
              && IsExtension(r[StampLength..])
              && r[StampLength..] == Body(name)[|Body(name)| - (|r| - StampLength)..]
  {
    match Match(name)
    case None => name
    case Some(g) => g.stamp + g.ext
  }

  /** Every result of `Match` is a genuine match of the regex, with the groups at the reported places. */
  lemma MatchSound(name: string)
    requires Match(name).Some?
    ensures var g := Match(name).value;
            var e := |Body(name)|;
            MatchesAt(name, e - |g.ext|, e)
            && g == FileGroups(name[..StampLength], name[e - |g.ext|..e])
  {
    var body := Body(name);
    var p := LastDot(body).value;
    assert body[..StampLength] == name[..StampLength];
    assert body[StampLength..p] == name[StampLength..p];
    assert body[p..] == name[p..|body|];
  }

  /** Every way the regex can match `name` yields exactly the groups `Match` reports. */
  lemma MatchComplete(name: string, p: nat, e: nat)
    requires MatchesAt(name, p, e)
    ensures Match(name) == Some(FileGroups(name[..StampLength], name[p..e]))
  {
    var body := Body(name);
    assert name[e - 1] == name[p..e][e - 1 - p];
    assert |body| == e;
    assert body == name[..e];
    assert body[p] == '.' by { assert name[p..e][0] == '.'; }
    var last := LastDot(body);
    assert last.Some? && last.value >= p;
    if last.value > p {
      assert false;
    }
    assert body[..StampLength] == name[..StampLength];
    assert body[StampLength..p] == name[StampLength..p];
    assert body[p + 1..] == name[p..e][1..];
  }

  /** `Match` succeeds exactly when the regex does. */
  lemma MatchIff(name: string)
    ensures Match(name).Some? <==> Accepts(name)
  {
    if Match(name).Some? {
      MatchSound(name);
      var e := |Body(name)|;
      assert MatchesAt(name, e - |Match(name).value.ext|, e);
    }
    if Accepts(name) {
      var p: nat, e: nat :| MatchesAt(name, p, e);
      MatchComplete(name, p, e);
    }
  }

  /** Group 2 of any match ends where `$` closes the body. */
  lemma MatchEndsAtBody(name: string, p: nat, e: nat)
    requires MatchesAt(name, p, e)
    ensures e == |Body(name)|
  {
    assert name[e - 1] == name[p..e][e - 1 - p];
  }

  /** The split is forced: greedy or lazy, every match puts group 2 at the same place. */
  lemma GroupsUnique(name: string, p: nat, e: nat, p': nat, e': nat)
    requires MatchesAt(name, p, e) && MatchesAt(name, p', e')
    ensures p == p' && e == e'
  {
    MatchEndsAtBody(name, p, e);
    MatchEndsAtBody(name, p', e');
    MatchComplete(name, p, e);
    MatchComplete(name, p', e');
    assert |name[p..e]| == |name[p'..e']|;
  }

  /** The canonical name of a match matches again, with the same groups. */
  lemma {:induction false} CanonicalMatchesItself(name: string)
    requires Match(name).Some?
    ensures Match(Canonicalize(name)) == Match(name)
  {
    var g := Match(name).value;
    var c := g.stamp + g.ext;
    assert c[..StampLength] == g.stamp;
    assert c[StampLength..StampLength] == [];
    assert c[StampLength..|c|] == g.ext;
    assert MatchesAt(c, StampLength, |c|);
    MatchComplete(c, StampLength, |c|);
  }

  /** Canonicalising twice gives the same name as canonicalising once, for every name. */
  lemma CanonicalizeIdempotent(name: string)
    ensures Canonicalize(Canonicalize(name)) == Canonicalize(name)
    ensures Match(Canonicalize(name)).Some? <==> Match(name).Some?
  {
    if Match(name).Some? {
      CanonicalMatchesItself(name);
    }
  }

  /** A name is its own canonical form exactly when it is 14 digits followed directly by an extension. */
  lemma CanonicalIff(name: string)
    ensures Match(name).Some? && Canonicalize(name) == name
            <==> |name| >= StampLength && AllDigits(name[..StampLength]) && IsExtension(name[StampLength..])
  {
    if |name| >= StampLength && AllDigits(name[..StampLength]) && IsExtension(name[StampLength..]) {
      assert name[StampLength..|name|] == name[StampLength..];
      assert name[StampLength..StampLength] == [];
      assert MatchesAt(name, StampLength, |name|);
      MatchComplete(name, StampLength, |name|);
      assert name == name[..StampLength] + name[StampLength..];
    }
    if Match(name).Some? && Canonicalize(name) == name {
      var g := Match(name).value;
      assert name[StampLength..] == g.ext;
    }
  }

  /** A character before the fifteenth that is not a digit rules out a match. */
  lemma NoMatchWithoutStamp(name: string, k: nat)
    requires k < StampLength && k < |name| && !IsDigit(name[k])
    ensures Match(name) == None
  {
  }

  /**
    A character that is neither a letter nor a digit in the last dot-segment, or a final dot,
    rules out a match: group 2 must be a dot and letters or digits up to `$`.
  */
  lemma NoMatchWithBadSuffix(name: string, k: nat)
    requires k < |Body(name)| && !IsAlnum(Body(name)[k])
    requires forall i :: k < i < |Body(name)| ==> Body(name)[i] != '.'
    requires Body(name)[k] == '.' ==> k + 1 == |Body(name)|
    ensures Match(name) == None
  {
  }

  /** A newline anywhere but at the very end rules out a match: neither `.*` nor group 2 crosses it. */
  lemma NoMatchWithInnerNewline(name: string, k: nat)
    requires k < |Body(name)| && Body(name)[k] == '\n'
    ensures Match(name) == None
  {
    if Match(name).Some? {
      MatchSound(name);
    }
  }

  /** Fourteen digits, any middle without a newline, and an extension: the middle is dropped. */
  lemma MatchParts(stamp: string, middle: string, ext: string)
    requires |stamp| == StampLength && AllDigits(stamp) && NoNewline(middle) && IsExtension(ext)
    ensures Match(stamp + middle + ext) == Some(FileGroups(stamp, ext))
    ensures Canonicalize(stamp + middle + ext) == stamp + ext
  {
    var name := stamp + middle + ext;
    var p := |stamp| + |middle|;
    assert name[..StampLength] == stamp;
    assert name[StampLength..p] == middle;
    assert name[p..|name|] == ext;
    assert MatchesAt(name, p, |name|);
    MatchComplete(name, p, |name|);
  }

  /** `<stamp>_IMG_extra.jpg`, as `20240115103000_IMG_extra.jpg`, yields the stamp and `.jpg`. */
  lemma ExampleMiddleDropped(stamp: string)
    requires |stamp| == StampLength && AllDigits(stamp)
    ensures Match(stamp + "_IMG_extra.jpg") == Some(FileGroups(stamp, ".jpg"))
    ensures Canonicalize(stamp + "_IMG_extra.jpg") == stamp + ".jpg"
  {
    assert ".jpg"[1..] == "jpg";
    MatchParts(stamp, "_IMG_extra", ".jpg");
    assert stamp + "_IMG_extra" + ".jpg" == stamp + "_IMG_extra.jpg";
  }

  /** Digits past the fourteenth fall into the discarded `.*`: `<stamp>99.png` becomes `<stamp>.png`. */
  lemma ExampleExtraDigits(stamp: string)
    requires |stamp| == StampLength && AllDigits(stamp)
    ensures Canonicalize(stamp + "99.png") == stamp + ".png"
  {
    assert IsExtension(".png") by {
      assert ".png"[1..] == "png";
    }
    assert stamp + "99" + ".png" == stamp + "99.png";
    MatchParts(stamp, "99", ".png");
  }

  /** The middle `.*` may be empty: a 16-character name matches, and the regex accepts no shorter one. */
  lemma ExampleShortest(stamp: string)
    requires |stamp| == StampLength && AllDigits(stamp)
    ensures Match(stamp + ".a") == Some(FileGroups(stamp, ".a"))
    ensures Accepts(stamp + ".a")
    ensures Canonicalize(stamp + ".a") == stamp + ".a"
    ensures forall name :: Accepts(name) ==> |name| >= 16
  {
    MatchParts(stamp, "", ".a");
    assert stamp + "" + ".a" == stamp + ".a";
    MatchIff(stamp + ".a");
    forall name | Accepts(name)
      ensures |name| >= 16
    {
      MatchIff(name);
    }
  }

  /** Names without the 14-digit prefix, or whose last dot-segment is empty or not alphanumeric, do not match. */
  lemma ExampleNoMatch()
    ensures Match("notadate.jpg") == None
    ensures Match("2024011510300_.jpg") == None
    ensures Match("20240115103000.jpg.") == None
    ensures Match("20240115103000.jp-g") == None
  {
    NoMatchWithoutStamp("2024011510300_.jpg", 13);
    NoMatchWithBadSuffix("20240115103000.jpg.", 18);
    NoMatchWithBadSuffix("20240115103000.jp-g", 17);
  }

  /** `$` also matches before a final newline, which the canonical name then leaves behind. */
  lemma ExampleFinalNewline(stamp: string)
    requires |stamp| == StampLength && AllDigits(stamp)
    ensures Canonicalize(stamp + "_x.jpg\n") == stamp + ".jpg"
  {
    var name := stamp + "_x.jpg\n";
    assert name[..StampLength] == stamp;
    assert name[StampLength..16] == "_x";
    assert name[16..20] == ".jpg";
    assert ".jpg"[1..] == "jpg";
    assert MatchesAt(name, 16, 20);
    MatchComplete(name, 16, 20);
  }
}
