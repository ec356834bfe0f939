/**
 * `convert_gradle_time_to_seconds`: a duration printed by Gradle, such as
 * "2 mins 3.5 secs" (older releases) or "3m 10s" (newer ones), to whole seconds.
 * Each regular expression is written out as the start index at which Python's
 * `re.search` finds its first match and the groups that match captures.
 */
module GradleDuration {
  import opened Wrappers
  import opened Text

  /** The groups a duration pattern captures: the optional minutes and the whole seconds. */
  datatype Captures = Captures(minutes: Option<string>, seconds: string)

  predicate ValidCaptures(c: Captures) {
    AllDigits(c.seconds) && (c.minutes.Some? ==> AllDigits(c.minutes.value))
  }

  /** `int(group(3))` without minutes, `int(group(2)) * 60 + int(group(3))` with them. */
  function CapturedSeconds(c: Captures): nat
    requires ValidCaptures(c)
  {
    match c.minutes
    case None => NumberValue(c.seconds)
    case Some(m) => NumberValue(m) * 60 + NumberValue(c.seconds)
  }

  /** ` (\d+)(\.\d+) secs` at index `t`: the whole seconds it captures; the fraction is dropped. */
  function SecsTail(s: string, t: nat): (r: Option<string>)
    requires t <= |s|
    ensures r.Some? ==> AllDigits(r.value)
  {
    if t < |s| && s[t] == ' ' then
      var e1 := DigitsEnd(s, t + 1);
      if e1 > t + 1 && HasAt(s, e1, ".") then
        var e2 := DigitsEnd(s, e1 + 1);
        if e2 > e1 + 1 && HasAt(s, e2, " secs") then Some(s[t + 1..e1]) else None
      else None
    else None
  }

  /**
   * `((\d+) mins)? (\d+)(\.\d+) secs` tried at start index `i`. At a digit only the
   * minutes branch can match (the branch without it needs a space there); anywhere
   * else only the branch without minutes can.
   */
  function LegacyAt(s: string, i: nat): (r: Option<Captures>)
    requires i <= |s|
    ensures r.Some? ==> ValidCaptures(r.value)
  {
    if i < |s| && IsDigit(s[i]) then
      var e := DigitsEnd(s, i);
      if HasAt(s, e, " mins") then
        match SecsTail(s, e + 5)
        case Some(sec) => Some(Captures(Some(s[i..e]), sec))
        case None => None
      else None
    else
      match SecsTail(s, i)
      case Some(sec) => Some(Captures(None, sec))
      case None => None
  }

  /** `re.search` of the legacy pattern from index `i` on: the first start index that matches wins. */
  function LegacySearch(s: string, i: nat): (r: Option<Captures>)
    requires i <= |s|
    ensures r.Some? ==> ValidCaptures(r.value)
    decreases |s| - i
  {
    match LegacyAt(s, i)
    case Some(c) => Some(c)
    case None => if i == |s| then None else LegacySearch(s, i + 1)
  }

  /** `(\d+)s` at index `t`. */
  function SecondsAt(s: string, t: nat): (r: Option<string>)
    requires t <= |s|
    ensures r.Some? ==> AllDigits(r.value)
  {
    var e := DigitsEnd(s, t);
    if e > t && HasAt(s, e, "s") then Some(s[t..e]) else None
  }

  /**
   * `((\d+)m )?(\d+)s` tried at start index `i`: the optional minutes group is tried
   * first and, when what follows it fails, the same start is tried without it.
   */
  function CompactAt(s: string, i: nat): (r: Option<Captures>)
    requires i <= |s|
    ensures r.Some? ==> ValidCaptures(r.value)
  {
    if i < |s| && IsDigit(s[i]) then
      var e := DigitsEnd(s, i);
      var withMinutes :=
        if HasAt(s, e, "m ") then
          match SecondsAt(s, e + 2)
          case Some(sec) => Some(Captures(Some(s[i..e]), sec))
          case None => None
        else None;
      if withMinutes.Some? then withMinutes
      else
        match SecondsAt(s, i)
        case Some(sec) => Some(Captures(None, sec))
        case None => None
    else None
  }

  function CompactSearch(s: string, i: nat): (r: Option<Captures>)
    requires i <= |s|
    ensures r.Some? ==> ValidCaptures(r.value)
    decreases |s| - i
  {
    match CompactAt(s, i)
    case Some(c) => Some(c)
    case None => if i == |s| then None else CompactSearch(s, i + 1)
  }

  /** The legacy form first, then the compact form, and 0 for anything else. */
  function ConvertGradleTimeToSeconds(s: string): nat
  {
    match LegacySearch(s, 0)
    case Some(c) => CapturedSeconds(c)
    case None =>
      match CompactSearch(s, 0)
      case Some(c) => CapturedSeconds(c)
      case None => 0
  }

  // ---------------------------------------------------------------------------
  // Properties

  /** The seconds tail given by where its two digit runs end. */
  lemma SecsTailEnds(s: string, t: nat, e1: nat, e2: nat)
    requires t < |s| && s[t] == ' '
    requires t + 1 < e1 < |s| && DigitsEnd(s, t + 1) == e1 && HasAt(s, e1, ".")
    requires e1 + 1 < e2 <= |s| && DigitsEnd(s, e1 + 1) == e2 && HasAt(s, e2, " secs")
    ensures SecsTail(s, t) == Some(s[t + 1..e1])
  {
  }

  /** The seconds tail laid out at `t` as a space, `sec`, a dot, `frac` and " secs" captures `sec`. */
  lemma SecsTailAt(s: string, t: nat, sec: string, frac: string)
    requires |sec| > 0 && |frac| > 0
    requires AllDigits(sec) && AllDigits(frac)
    requires HasAt(s, t, " ") && HasAt(s, t + 1, sec) && HasAt(s, t + 1 + |sec|, ".")
    requires HasAt(s, t + 2 + |sec|, frac) && HasAt(s, t + 2 + |sec| + |frac|, " secs")
    ensures SecsTail(s, t) == Some(sec)
  {
    var e1 := t + 1 + |sec|;
    var e2 := t + 2 + |sec| + |frac|;
    assert s[t] == ' ' by { HasAtChar(s, t, ' '); }
    assert s[e1] == '.' by { HasAtChar(s, e1, '.'); }
    assert s[e2] == ' ' by { HasAtHead(s, e2, " secs"); }
    assert DigitsEnd(s, t + 1) == e1 by { DigitsEndOfRun(s, t + 1, sec); }
    assert DigitsEnd(s, e1 + 1) == e2 by { DigitsEndOfRun(s, e1 + 1, frac); }
    assert s[t + 1..e1] == sec;
    SecsTailEnds(s, t, e1, e2);
  }

  /** The seconds tail " s.f secs" found at `t` captures s. */
  lemma SecsTailOf(s: string, t: nat, sec: string, frac: string)
    requires |sec| > 0 && |frac| > 0
    requires AllDigits(sec) && AllDigits(frac)
    requires HasAt(s, t, " " + sec + "." + frac + " secs")
    ensures SecsTail(s, t) == Some(sec)
  {
    HasAtAppend(s, t, " " + sec + "." + frac, " secs");
    HasAtAppend(s, t, " " + sec + ".", frac);
    HasAtAppend(s, t, " " + sec, ".");
    HasAtAppend(s, t, " ", sec);
    SecsTailAt(s, t, sec, frac);
  }

  /** The legacy form with minutes laid out at the start: `m`, " mins" and a seconds tail. */
  lemma LegacyMinutesAt(s: string, m: string, sec: string)
    requires |m| > 0 && AllDigits(m)
    requires HasAt(s, 0, m) && HasAt(s, |m|, " mins") && |m| + 5 <= |s| && SecsTail(s, |m| + 5) == Some(sec)
    ensures LegacySearch(s, 0) == Some(Captures(Some(m), sec))
  {
    HasAtHead(s, |m|, " mins");
    DigitsEndOfRun(s, 0, m);
    HasAtHead(s, 0, m);
    assert s[0..|m|] == m;
  }

  lemma LegacyMinutesSplit(s: string, m: string, sec: string, frac: string)
    requires |m| > 0 && |sec| > 0 && |frac| > 0
    requires AllDigits(m) && AllDigits(sec) && AllDigits(frac)
    requires s == m + " mins" + (" " + sec + "." + frac + " secs")
    ensures LegacySearch(s, 0) == Some(Captures(Some(m), sec))
  {
    var tail := " " + sec + "." + frac + " secs";
    assert HasAt(s, 0, s);
    HasAtAppend(s, 0, m + " mins", tail);
    HasAtAppend(s, 0, m, " mins");
    SecsTailOf(s, |m| + 5, sec, frac);
    LegacyMinutesAt(s, m, sec);
  }

  /** "m mins s.f secs" is m minutes and s seconds; the fraction f is dropped. */
  lemma LegacyWithMinutes(m: string, sec: string, frac: string)
    requires |m| > 0 && |sec| > 0 && |frac| > 0
    requires AllDigits(m) && AllDigits(sec) && AllDigits(frac)
    ensures ConvertGradleTimeToSeconds(m + " mins " + sec + "." + frac + " secs")
            == 60 * NumberValue(m) + NumberValue(sec)
  {
    var s := m + " mins" + (" " + sec + "." + frac + " secs");
    assert s == m + " mins " + sec + "." + frac + " secs";
    LegacyMinutesSplit(s, m, sec, frac);
  }

  /** " s.f secs", with the space in front, is s seconds. */
  lemma LegacySecondsOnly(sec: string, frac: string)
    requires |sec| > 0 && |frac| > 0
    requires AllDigits(sec) && AllDigits(frac)
    ensures ConvertGradleTimeToSeconds(" " + sec + "." + frac + " secs") == NumberValue(sec)
  {
    var s := " " + sec + "." + frac + " secs";
    assert HasAt(s, 0, s);
    SecsTailOf(s, 0, sec, frac);
    assert LegacyAt(s, 0) == Some(Captures(None, sec));
  }

  /** Without a '.' there is no seconds tail. */
  lemma NoDotNoSecsTail(s: string, t: nat)
    requires t <= |s|
    requires forall k :: 0 <= k < |s| ==> s[k] != '.'
    ensures SecsTail(s, t) == None
  {
    if t < |s| && s[t] == ' ' {
      var e1 := DigitsEnd(s, t + 1);
      HasAtChar(s, e1, '.');
    }
  }

  /** The legacy form needs a '.', so a string without one never matches it. */
  lemma {:induction false} LegacyNeedsDot(s: string, i: nat)
    requires i <= |s|
    requires forall k :: 0 <= k < |s| ==> s[k] != '.'
    ensures LegacySearch(s, i) == None
    decreases |s| - i
  {
    if i < |s| && IsDigit(s[i]) {
      var e := DigitsEnd(s, i);
      if HasAt(s, e, " mins") {
        NoDotNoSecsTail(s, e + 5);
      }
    } else {
      NoDotNoSecsTail(s, i);
    }
    assert LegacyAt(s, i) == None;
    if i < |s| {
      LegacyNeedsDot(s, i + 1);
    }
  }

  /** The compact form with minutes laid out at the start: `m`, "m ", `sec` and "s". */
  lemma CompactMinutesAt(s: string, m: string, sec: string)
    requires |m| > 0 && |sec| > 0 && AllDigits(m) && AllDigits(sec)
    requires HasAt(s, 0, m) && HasAt(s, |m|, "m ") && HasAt(s, |m| + 2, sec) && HasAt(s, |m| + 2 + |sec|, "s")
    ensures CompactAt(s, 0) == Some(Captures(Some(m), sec))
  {
    var t := |m| + 2;
    HasAtHead(s, |m|, "m ");
    HasAtHead(s, t + |sec|, "s");
    HasAtHead(s, 0, m);
    DigitsEndOfRun(s, 0, m);
    DigitsEndOfRun(s, t, sec);
    assert DigitsEnd(s, 0) == |m| && HasAt(s, |m|, "m ");
    assert DigitsEnd(s, t) == t + |sec| && HasAt(s, t + |sec|, "s");
    assert s[0..|m|] == m;
    assert s[t..t + |sec|] == sec;
  }

  /** The compact form "Mm Ss" is M minutes and S seconds. */
  lemma CompactWithMinutes(m: string, sec: string)
    requires |m| > 0 && |sec| > 0
    requires AllDigits(m) && AllDigits(sec)
    ensures ConvertGradleTimeToSeconds(m + "m " + sec + "s") == 60 * NumberValue(m) + NumberValue(sec)
  {
    var s := m + "m " + sec + "s";
    assert forall k :: 0 <= k < |s| ==> s[k] != '.';
    LegacyNeedsDot(s, 0);
    assert HasAt(s, 0, s);
    HasAtAppend(s, 0, m + "m " + sec, "s");
    HasAtAppend(s, 0, m + "m ", sec);
    HasAtAppend(s, 0, m, "m ");
    CompactMinutesAt(s, m, sec);
  }

  /** "Ss" alone is S seconds. */
  lemma CompactSecondsOnly(sec: string)
    requires |sec| > 0 && AllDigits(sec)
    ensures ConvertGradleTimeToSeconds(sec + "s") == NumberValue(sec)
  {
    var s := sec + "s";
    assert forall k :: 0 <= k < |s| ==> s[k] != '.';
    LegacyNeedsDot(s, 0);
    assert HasAt(s, 0, s);
    HasAtAppend(s, 0, sec, "s");
    DigitsEndOfRun(s, 0, sec);
    assert !HasAt(s, |sec|, "m ");
    assert s[0..|sec|] == sec;
    assert CompactAt(s, 0) == Some(Captures(None, sec));
  }

  /** When no start index from `i` on matches, the legacy search finds nothing. */
  lemma {:induction false} LegacySearchNone(s: string, i: nat)
    requires i <= |s|
    requires forall k :: i <= k <= |s| ==> LegacyAt(s, k) == None
    ensures LegacySearch(s, i) == None
    decreases |s| - i
  {
    if i < |s| {
      LegacySearchNone(s, i + 1);
    }
  }

  /** When no start index from `i` on matches, the compact search finds nothing. */
  lemma {:induction false} CompactSearchNone(s: string, i: nat)
    requires i <= |s|
    requires forall k :: i <= k <= |s| ==> CompactAt(s, k) == None
    ensures CompactSearch(s, i) == None
    decreases |s| - i
  {
    if i < |s| {
      CompactSearchNone(s, i + 1);
    }
  }

  /** A string without digits is not a duration: it converts to 0. */
  lemma NoDigitsIsZero(s: string)
    requires forall k :: 0 <= k < |s| ==> !IsDigit(s[k])
    ensures ConvertGradleTimeToSeconds(s) == 0
  {
    forall k | 0 <= k <= |s| ensures LegacyAt(s, k) == None && CompactAt(s, k) == None {
      if k < |s| && s[k] == ' ' {
        assert DigitsEnd(s, k + 1) == k + 1;
      }
    }
    LegacySearchNone(s, 0);
    CompactSearchNone(s, 0);
  }

  /** A start index inside a run of digits matches neither form when what ends the run rules both out. */
  lemma DigitRunNoMatch(s: string, k: nat, j: nat)
    requires k < j <= |s|
    requires forall i :: k <= i < j ==> IsDigit(s[i])
    requires j == |s| || !IsDigit(s[j])
    requires !HasAt(s, j, " mins") && !HasAt(s, j, "m ") && !HasAt(s, j, "s")
    ensures LegacyAt(s, k) == None && CompactAt(s, k) == None
  {
    DigitsEndWithin(s, k, j);
  }

  /** A start index that is neither a digit nor a space matches neither form. */
  lemma PlainCharNoMatch(s: string, k: nat)
    requires k < |s| && !IsDigit(s[k]) && s[k] != ' '
    ensures LegacyAt(s, k) == None && CompactAt(s, k) == None
  {
  }

  /** A space followed by something other than a digit matches neither form. */
  lemma SpaceNoMatch(s: string, k: nat)
    requires k + 1 < |s| && s[k] == ' ' && !IsDigit(s[k + 1])
    ensures LegacyAt(s, k) == None && CompactAt(s, k) == None
  {
    DigitsEndWithin(s, k + 1, k + 1);
  }

  /** Digits, a dot, digits and " secs", with nothing before: neither form matches anywhere. */
  lemma SecondsWithoutSpaceLayout(s: string, d: nat, w: nat)
    requires 0 < d && d + 1 < w && |s| == w + 5
    requires forall i :: 0 <= i < d ==> IsDigit(s[i])
    requires s[d] == '.'
    requires forall i :: d < i < w ==> IsDigit(s[i])
    requires s[w] == ' ' && s[w + 1] == 's' && s[w + 2] == 'e' && s[w + 3] == 'c' && s[w + 4] == 's'
    ensures ConvertGradleTimeToSeconds(s) == 0
  {
    NotHasAtHead(s, d, " mins");
    NotHasAtHead(s, d, "m ");
    NotHasAtHead(s, d, "s");
    NotHasAtIndex(s, w, " mins", 1);
    NotHasAtHead(s, w, "m ");
    NotHasAtHead(s, w, "s");
    forall k | 0 <= k <= |s| ensures LegacyAt(s, k) == None && CompactAt(s, k) == None {
      if k < d {
        DigitRunNoMatch(s, k, d);
      } else if k == d {
        PlainCharNoMatch(s, k);
      } else if k < w {
        DigitRunNoMatch(s, k, w);
      } else if k == w {
        SpaceNoMatch(s, k);
      } else if k < |s| {
        PlainCharNoMatch(s, k);
      }
    }
    LegacySearchNone(s, 0);
    CompactSearchNone(s, 0);
  }

  /**
   * "s.f secs" without a space in front matches neither form: the legacy form needs
   * the space before the seconds and the compact form needs an 's' right after digits.
   */
  lemma SecondsWithoutSpaceIsZero(sec: string, frac: string)
    requires |sec| > 0 && |frac| > 0
    requires AllDigits(sec) && AllDigits(frac)
    ensures ConvertGradleTimeToSeconds(sec + "." + frac + " secs") == 0
  {
    var s := sec + "." + frac + " secs";
    var d := |sec|;
    var w := d + 1 + |frac|;
    assert forall i :: 0 <= i < d ==> s[i] == sec[i];
    assert forall i :: d < i < w ==> s[i] == frac[i - d - 1];
    assert s[w..] == " secs";
    assert s[w] == ' ' && s[w + 1] == 's' && s[w + 2] == 'e' && s[w + 3] == 'c' && s[w + 4] == 's' by {
      assert s[w..][0] == s[w] && s[w..][1] == s[w + 1] && s[w..][2] == s[w + 2];
      assert s[w..][3] == s[w + 3] && s[w..][4] == s[w + 4];
    }
    SecondsWithoutSpaceLayout(s, d, w);
  }

  /** "2 mins 3.5 secs" is 123 seconds. */
  lemma LegacyExample()
    ensures ConvertGradleTimeToSeconds("2 mins 3.5 secs") == 123
  {
    var s := "2" + " mins " + "3" + "." + "5" + " secs";
    assert s == "2 mins 3.5 secs";
    LegacyWithMinutes("2", "3", "5");
    assert NumberValue("2") == 2 && NumberValue("3") == 3 by {
      assert "2"[..0] == [] && "3"[..0] == [];
    }
  }

  /** "45s" is 45 seconds and "3m 10s" is 190. */
  lemma CompactExamples()
    ensures ConvertGradleTimeToSeconds("45s") == 45
    ensures ConvertGradleTimeToSeconds("3m 10s") == 190
  {
    CompactSecondsOnly("45");
    assert "45" + "s" == "45s";
    CompactWithMinutes("3", "10");
    assert "3" + "m " + "10" + "s" == "3m 10s";
  }

  lemma NotADurationExample(s: string)
    requires s == "n/a"
    ensures ConvertGradleTimeToSeconds(s) == 0
  {
    forall k | 0 <= k < |s| ensures !IsDigit(s[k]) {
      assert k == 0 || k == 1 || k == 2;
    }
    NoDigitsIsZero(s);
  }

  lemma NoSpaceExample(s: string)
    requires s == "3.5 secs"
    ensures ConvertGradleTimeToSeconds(s) == 0
  {
    assert s == "3" + "." + "5" + " secs";
    SecondsWithoutSpaceIsZero("3", "5");
  }

  /** "n/a" and "3.5 secs" convert to 0. */
  lemma UnparsedExamples()
    ensures ConvertGradleTimeToSeconds("n/a") == 0
    ensures ConvertGradleTimeToSeconds("3.5 secs") == 0
  {
    NotADurationExample("n/a");
    NoSpaceExample("3.5 secs");
  }
}
