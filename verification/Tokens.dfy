/** The tokens the linter lets pass, by how they are put together: and so which it does not. */
module Tokens {
  import opened Text
  import opened Values
  import opened Lint

  ghost predicate Numeral(d: string) {
    d != "" && forall i :: 0 <= i < |d| ==> '0' <= d[i] <= '9'
  }

  /** So many digits. */
  ghost predicate Numerals(d: string, n: nat) {
    |d| == n && forall i :: 0 <= i < |d| ==> '0' <= d[i] <= '9'
  }

  ghost predicate Letters(a: string) {
    forall i :: 0 <= i < |a| ==> 'a' <= a[i] <= 'z'
  }

  /** A decimal number, maybe negative. */
  ghost predicate NumberShape(s: string) {
    Numeral(s) || (s != "" && s[0] == '-' && Numeral(s[1..]))
  }

  /** Two numbers with a point between them: an alert's id. */
  ghost predicate PointShape(s: string, a: string, b: string) {
    Numeral(a) && Numeral(b) && s == a + "." + b
  }

  /** A few letters, a dash and one or two digits: a rule of a decision table. */
  ghost predicate DashShape(s: string, a: string, d: string) {
    Letters(a) && 2 <= |a| <= 6 && Numeral(d) && |d| <= 2 && s == a + "-" + d
  }

  /** A technique, maybe with its sub-technique. */
  ghost predicate TechniqueShape(s: string, d: string, sub: string) {
    Numerals(d, 4) && (sub == "" || (|sub| == 4 && sub[0] == '.' && Numerals(sub[1..], 3))) && s == "T" + d + sub
  }

  ghost predicate DayShape(day: string, y: string, m: string, d: string) {
    Numerals(y, 4) && Numerals(m, 2) && Numerals(d, 2) && day == y + "-" + m + "-" + d
  }

  ghost predicate HourShape(hour: string, h: string, m: string, s: string) {
    Numerals(h, 2) && Numerals(m, 2) && Numerals(s, 2) && hour == h + ":" + m + ":" + s
  }

  ghost predicate OffsetShape(z: string, h: string, m: string) {
    Numerals(h, 2) && Numerals(m, 2) && (z == "+" + h + ":" + m || z == "-" + h + ":" + m)
  }

  ghost predicate IsDay(day: string) {
    exists y, m, d :: DayShape(day, y, m, d)
  }

  ghost predicate IsHour(hour: string) {
    exists h, m, s :: HourShape(hour, h, m, s)
  }

  ghost predicate IsOffset(z: string) {
    z == "Z" || exists h, m :: OffsetShape(z, h, m)
  }

  ghost predicate IsPart(f: string) {
    f == "" || (f[0] == '.' && Numeral(f[1..]))
  }

  /** A day, a time of day, maybe a part of a second, and an offset of whole minutes. */
  ghost predicate TimeShape(s: string, day: string, hour: string, part: string, z: string) {
    IsDay(day) && IsHour(hour) && IsPart(part) && IsOffset(z) && s == day + "T" + hour + part + z
  }

  ghost predicate IsPoint(s: string) {
    exists a, b :: PointShape(s, a, b)
  }

  ghost predicate IsDash(s: string) {
    exists a, d :: DashShape(s, a, d)
  }

  ghost predicate IsTechnique(s: string) {
    exists d, sub :: TechniqueShape(s, d, sub)
  }

  ghost predicate IsTime(s: string) {
    exists day, hour, part, z :: TimeShape(s, day, hour, part, z)
  }

  // ---- kind by kind ---------------------------------------------------------------------------------------

  lemma NumbersExactly(s: string)
    ensures IsInt(s) <==> NumberShape(s)
  {
  }

  lemma PointsExactly(s: string)
    ensures (exists dot :: 0 <= dot < |s| && Values.Dotted(s, dot)) <==> IsPoint(s)
  {
    if dot :| 0 <= dot < |s| && Values.Dotted(s, dot) {
      assert s == s[..dot] + "." + s[dot + 1..];
      assert PointShape(s, s[..dot], s[dot + 1..]);
    }
    if IsPoint(s) {
      var a, b :| PointShape(s, a, b);
      assert s[..|a|] == a && s[|a| + 1..] == b;
      assert Values.Dotted(s, |a|);
    }
  }

  lemma DashesExactly(s: string)
    ensures (exists dash :: 0 <= dash < |s| && Hyphened(s, dash)) <==> IsDash(s)
  {
    if dash :| 0 <= dash < |s| && Hyphened(s, dash) {
      assert s == s[..dash] + "-" + s[dash + 1..];
      assert DashShape(s, s[..dash], s[dash + 1..]);
    }
    if IsDash(s) {
      var a, d :| DashShape(s, a, d);
      assert s[..|a|] == a && s[|a| + 1..] == d;
      assert forall i :: 0 <= i < |a| ==> s[i] == a[i];
      assert Hyphened(s, |a|);
    }
  }

  lemma TechniquesExactly(s: string)
    ensures Matches(Mitre, s) <==> IsTechnique(s)
  {
    if Matches(Mitre, s) {
      assert s == "T" + s[1..5] + s[5..];
      if |s| == 9 { assert s[5..][1..] == s[6..]; }
      assert TechniqueShape(s, s[1..5], s[5..]);
    }
    if IsTechnique(s) {
      var d, sub :| TechniqueShape(s, d, sub);
      assert s[1..5] == d && s[5..] == sub;
      if sub != "" { assert s[6..] == sub[1..]; }
    }
  }

  lemma SignedParts(sign: string, h: string, m: string)
    requires |sign| == 1 && |h| == 2
    ensures var z := sign + h + ":" + m; z[1..3] == h && z[3] == ':' && z[4..] == m
  {
  }

  lemma OffsetsExactly(z: string)
    ensures IsZone(z) <==> IsOffset(z)
  {
    if IsZone(z) && z != "Z" {
      assert z == [z[0]] + z[1..3] + ":" + z[4..];
      assert OffsetShape(z, z[1..3], z[4..]);
    }
    if IsOffset(z) && z != "Z" {
      var h, m :| OffsetShape(z, h, m);
      SignedParts(if z[0] == '+' then "+" else "-", h, m);
    }
  }

  lemma DaysExactly(day: string)
    ensures DateShape(day) <==> IsDay(day)
  {
    if DateShape(day) {
      var y, m, d := day[..4], day[5..7], day[8..];
      assert day == y + "-" + m + "-" + d;
      assert DayShape(day, y, m, d);
    }
    if IsDay(day) { var y, m, d :| DayShape(day, y, m, d); }
  }

  lemma HoursExactly(hour: string)
    ensures ClockShape(hour) <==> IsHour(hour)
  {
    if ClockShape(hour) {
      var h, m, s := hour[..2], hour[3..5], hour[6..];
      assert hour == h + ":" + m + ":" + s;
      assert HourShape(hour, h, m, s);
    }
    if IsHour(hour) { var h, m, s :| HourShape(hour, h, m, s); }
  }

  /** The first nineteen characters of a time. */
  predicate MomentShape(s: string) {
    |s| >= 19 && forall i :: 0 <= i < 19 ==>
      if i in {4, 7} then s[i] == '-' else if i == 10 then s[i] == 'T'
      else if i in {13, 16} then s[i] == ':' else IsDigit(s[i])
  }

  lemma MomentsExactly(s: string, day: string, hour: string, rest: string)
    requires |day| == 10 && |hour| == 8 && s == day + "T" + hour + rest
    ensures MomentShape(s) <==> DateShape(day) && ClockShape(hour)
  {
    assert forall i :: 0 <= i < 10 ==> s[i] == day[i];
    assert s[10] == 'T';
    assert forall i :: 0 <= i < 8 ==> s[11 + i] == hour[i];
    if MomentShape(s) {
      forall i | 0 <= i < 8 ensures if i in {2, 5} then hour[i] == ':' else IsDigit(hour[i]) {
        assert s[11 + i] == hour[i];
      }
    }
    if DateShape(day) && ClockShape(hour) {
      forall i | 0 <= i < 19 ensures if i in {4, 7} then s[i] == '-' else if i == 10 then s[i] == 'T'
                                     else if i in {13, 16} then s[i] == ':' else IsDigit(s[i]) {
        if i > 10 { assert s[i] == hour[i - 11]; }
      }
    }
  }

  ghost predicate IsTail(tail: string) {
    exists part, z :: IsPart(part) && IsOffset(z) && tail == part + z
  }

  /** What may follow the seconds. */
  lemma TailsExactly(tail: string)
    ensures IsZone(tail) || (exists end :: 2 <= end <= |tail| && IsFraction(tail, end) && IsZone(tail[end..])) <==>
            IsTail(tail)
  {
    if IsZone(tail) {
      OffsetsExactly(tail);
      assert IsPart("") && tail == "" + tail;
    }
    if end :| 2 <= end <= |tail| && IsFraction(tail, end) && IsZone(tail[end..]) {
      var part := tail[..end];
      OffsetsExactly(tail[end..]);
      assert part[1..] == tail[1..end];
      assert IsPart(part) && tail == part + tail[end..];
    }
    if IsTail(tail) {
      var part, z :| IsPart(part) && IsOffset(z) && tail == part + z;
      OffsetsExactly(z);
      if part == "" {
        assert tail == z;
      } else {
        assert tail[1..|part|] == part[1..] && tail[|part|..] == z;
        assert IsFraction(tail, |part|);
      }
    }
  }

  lemma TailIsLong(tail: string)
    requires IsTail(tail)
    ensures tail != ""
  {
  }

  /** The reading by positions, in three parts. */
  lemma DateTimeInParts(s: string)
    ensures IsDateTime(s) <==> MomentShape(s) && IsTail(s[19..])
  {
    if |s| >= 19 {
      TailsExactly(s[19..]);
      if IsTail(s[19..]) { TailIsLong(s[19..]); }
    }
  }

  lemma MomentInParts(s: string)
    requires MomentShape(s)
    ensures IsDay(s[..10]) && IsHour(s[11..19]) && s == s[..10] + "T" + s[11..19] + s[19..]
  {
    assert s == s[..10] + "T" + s[11..19] + s[19..];
    MomentsExactly(s, s[..10], s[11..19], s[19..]);
    DaysExactly(s[..10]);
    HoursExactly(s[11..19]);
  }

  lemma PartsAreMoment(s: string, day: string, hour: string, tail: string)
    requires IsDay(day) && IsHour(hour) && s == day + "T" + hour + tail
    ensures MomentShape(s) && s[19..] == tail
  {
    DaysExactly(day);
    HoursExactly(hour);
    MomentsExactly(s, day, hour, tail);
  }

  lemma ReadIsBuilt(s: string)
    requires MomentShape(s) && IsTail(s[19..])
    ensures IsTime(s)
  {
    MomentInParts(s);
    var day, hour, tail := s[..10], s[11..19], s[19..];
    var part, z :| IsPart(part) && IsOffset(z) && tail == part + z;
    PartsOfTail(day, hour, part, z);
    assert TimeShape(s, day, hour, part, z);
  }

  lemma PartsOfTail(day: string, hour: string, part: string, z: string)
    ensures day + "T" + hour + (part + z) == day + "T" + hour + part + z
  {
  }

  lemma BuiltIsRead(s: string)
    requires IsTime(s)
    ensures MomentShape(s) && IsTail(s[19..])
  {
    var day, hour, part, z :| TimeShape(s, day, hour, part, z);
    PartsOfTail(day, hour, part, z);
    PartsAreMoment(s, day, hour, part + z);
  }

  lemma TimesExactly(s: string)
    ensures IsDateTime(s) <==> IsTime(s)
  {
    DateTimeInParts(s);
    if IsDateTime(s) { ReadIsBuilt(s); }
    if IsTime(s) { BuiltIsRead(s); }
  }

  // ---- what passes, and what does not ---------------------------------------------------------------------

  /** A token passes exactly as a word of the closed sets, a number, a time with an offset of whole minutes, an
      identifier of one of the shapes, or an equals sign. */
  lemma AllowedExactly(s: string, enums: set<string>)
    ensures AllowedToken(s, enums) <==>
            s in enums || NumberShape(s) || IsTime(s) || IsPoint(s) || IsDash(s) || IsTechnique(s) || s == "="
  {
    NumbersExactly(s);
    TimesExactly(s);
    PointsExactly(s);
    DashesExactly(s);
    TechniquesExactly(s);
    assert Matches(AlertId, s) <==> IsPoint(s);
    assert Matches(RuleRef, s) <==> IsDash(s);
    assert Matches(Mitre, s) <==> IsTechnique(s);
    if Matches(RuleId, s) || Matches(AgentId, s) { assert Numeral(s); }
    if Numeral(s) { assert Matches(RuleId, s); }
  }

  /** Free text: no digit in it, no edge character at either end, and no word of the closed sets. */
  predicate FreeWord(w: string, enums: set<string>) {
    && w != "" && w[0] !in EDGE_CHARS && w[|w| - 1] !in EDGE_CHARS
    && (forall i :: 0 <= i < |w| ==> !('0' <= w[i] <= '9'))
    && w !in enums && w != "="
  }

  lemma FreeWordIsRefused(w: string, enums: set<string>)
    requires FreeWord(w, enums)
    ensures Trim(w) == w && !AllowedToken(w, enums) && !Passes(w, enums)
  {
    AllowedExactly(w, enums);
    assert TrimLeft(w) == w && TrimRight(w) == w;
    if NumberShape(w) { NumberHasDigit(w); }
    if IsPoint(w) { PointHasDigit(w); }
    if IsDash(w) { DashHasDigit(w); }
    if IsTechnique(w) { TechniqueHasDigit(w); }
    if IsTime(w) { TimeHasDigit(w); }
  }

  lemma NumberHasDigit(s: string)
    requires NumberShape(s)
    ensures '0' <= s[|s| - 1] <= '9'
  {
    if !Numeral(s) { assert s[|s| - 1] == s[1..][|s| - 2]; }
  }

  lemma PointHasDigit(s: string)
    requires IsPoint(s)
    ensures '0' <= s[0] <= '9'
  {
    var a, b :| PointShape(s, a, b);
    assert s[0] == a[0];
  }

  lemma DashHasDigit(s: string)
    requires IsDash(s)
    ensures '0' <= s[|s| - 1] <= '9'
  {
    var a, d :| DashShape(s, a, d);
    assert s[|s| - 1] == d[|d| - 1];
  }

  lemma TechniqueHasDigit(s: string)
    requires IsTechnique(s)
    ensures |s| > 1 && '0' <= s[1] <= '9'
  {
    var d, sub :| TechniqueShape(s, d, sub);
    assert s[1] == d[0];
  }

  lemma TimeHasDigit(s: string)
    requires IsTime(s)
    ensures s != "" && '0' <= s[0] <= '9'
  {
    var day, hour, part, z :| TimeShape(s, day, hour, part, z);
    var y, m, d :| DayShape(day, y, m, d);
    assert s[0] == day[0] == y[0];
  }

  // ---- trimming ---------------------------------------------------------------------------------------------

  lemma {:induction false} TrimLeftCuts(s: string) returns (k: nat)
    ensures k <= |s| && TrimLeft(s) == s[k..] && forall i :: 0 <= i < k ==> s[i] in EDGE_CHARS
    ensures TrimLeft(s) == "" || TrimLeft(s)[0] !in EDGE_CHARS
  {
    k := 0;
    if s != "" && s[0] in EDGE_CHARS {
      var j := TrimLeftCuts(s[1..]);
      k := j + 1;
      forall i | 0 <= i < k ensures s[i] in EDGE_CHARS {
        if i > 0 { assert s[i] == s[1..][i - 1]; }
      }
    }
  }

  lemma {:induction false} TrimRightCuts(s: string) returns (n: nat)
    ensures n <= |s| && TrimRight(s) == s[..n] && forall i :: n <= i < |s| ==> s[i] in EDGE_CHARS
    ensures TrimRight(s) == "" || TrimRight(s)[|TrimRight(s)| - 1] !in EDGE_CHARS
  {
    n := |s|;
    if s != "" && s[|s| - 1] in EDGE_CHARS {
      n := TrimRightCuts(s[..|s| - 1]);
    }
  }

  /** Trimming cuts edge characters off both ends, as many as there are, and nothing else. */
  lemma TrimCutsTheEdges(s: string) returns (k: nat, n: nat)
    ensures k <= n <= |s| && Trim(s) == s[k..n]
    ensures forall i :: 0 <= i < k || n <= i < |s| ==> s[i] in EDGE_CHARS
    ensures Trim(s) == "" || (s[k] !in EDGE_CHARS && s[n - 1] !in EDGE_CHARS)
  {
    k := TrimLeftCuts(s);
    var m := TrimRightCuts(s[k..]);
    n := k + m;
    assert s[k..][..m] == s[k..n];
    forall i | n <= i < |s| ensures s[i] in EDGE_CHARS { assert s[i] == s[k..][i - k]; }
  }
}
