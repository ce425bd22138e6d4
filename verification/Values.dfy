/** The closed set of values a prompt may show outside a block, and the linter's reading of them. */
module Values {
  import opened Text

  /** `fromisoformat` values carry an offset from UTC, which may have seconds. */
  datatype Moment = Moment(year: nat, month: nat, day: nat, hour: nat, minute: nat, second: nat, east: bool,
                           offHours: nat, offMinutes: nat, offSeconds: nat)
  {
    ghost predicate Valid() {
      && year < 10000 && month < 100 && day < 100 && hour < 100 && minute < 100 && second < 100
      && offHours < 100 && offMinutes < 100 && offSeconds < 100
    }
  }

  datatype Kind = AlertId | RuleId | Mitre | AgentId | RuleRef

  datatype Value = Word(word: string) | Number(n: int) | Time(t: Moment) | Ident(kind: Kind, id: string)

  const LABELS: set<string> := {
    "critical", "high", "medium", "low", "true", "false", "found", "very_high",
    "ransomware", "malware", "c2_beacon", "data_exfiltration", "privilege_escalation", "ssh_brute_force"
  }
  const CATEGORIES: set<string> := {
    "web_attack", "suspicious_login", "recon", "policy_violation", "unknown",
    "malicious", "suspicious", "clean", "not_found", "skipped", "needs_review"
  }
  const STATUSES: set<string> := {
    "received", "duplicate", "auto_closed", "enriching", "queued_tier1", "tier1_active", "escalated_tier2",
    "closed_fp", "closed_benign", "closed_confirmed", "false_positive", "escalate"
  }

  /** Every value of the ten closed sets. */
  const ENUM_VALUES: set<string> := LABELS + CATEGORIES + STATUSES

  // ---- patterns ---------------------------------------------------------------------------------

  predicate IsLower(c: char) {
    'a' <= c <= 'z'
  }

  predicate Digits(s: string) {
    forall i :: 0 <= i < |s| ==> IsDigit(s[i])
  }

  predicate IsInt(s: string) {
    var body := if s != "" && s[0] == '-' then s[1..] else s;
    body != "" && Digits(body)
  }

  predicate Dotted(s: string, dot: nat) {
    0 < dot < |s| - 1 && s[dot] == '.' && Digits(s[..dot]) && Digits(s[dot + 1..])
  }

  predicate Hyphened(s: string, dash: nat) {
    && 2 <= dash <= 6 && dash + 2 <= |s| <= dash + 3 && s[dash] == '-'
    && (forall i :: 0 <= i < dash ==> IsLower(s[i])) && Digits(s[dash + 1..])
  }

  predicate Matches(kind: Kind, s: string) {
    match kind
    case AlertId => exists dot :: 0 <= dot < |s| && Dotted(s, dot)
    case RuleId => s != "" && Digits(s)
    case Mitre =>
      && |s| in {5, 9} && s[0] == 'T' && Digits(s[1..5])
      && (|s| == 9 ==> s[5] == '.' && Digits(s[6..]))
    case AgentId => |s| >= 3 && Digits(s)
    case RuleRef => exists dash :: 0 <= dash < |s| && Hyphened(s, dash)
  }

  predicate IsZone(z: string) {
    || z == "Z"
    || (|z| == 6 && z[0] in {'+', '-'} && Digits(z[1..3]) && z[3] == ':' && Digits(z[4..]))
  }

  predicate IsFraction(s: string, end: nat) {
    2 <= end <= |s| && s[0] == '.' && Digits(s[1..end])
  }

  predicate IsDateTime(s: string) {
    && |s| >= 20
    && (forall i :: 0 <= i < 19 ==>
          if i in {4, 7} then s[i] == '-' else if i == 10 then s[i] == 'T'
          else if i in {13, 16} then s[i] == ':' else IsDigit(s[i]))
    && (IsZone(s[19..]) || exists end :: 2 <= end <= |s[19..]| && IsFraction(s[19..], end) && IsZone(s[19..][end..]))
  }

  predicate AllowedToken(token: string, enums: set<string>) {
    token in enums || IsInt(token) || IsDateTime(token) || (exists k: Kind :: Matches(k, token)) || token == "="
  }

  // ---- rendering ----------------------------------------------------------------------------------

  function Two(n: nat): string
    requires n < 100
  {
    [Digit(n / 10), Digit(n % 10)]
  }

  function Four(n: nat): string
    requires n < 10000
  {
    Two(n / 100) + Two(n % 100)
  }

  function Clock(h: nat, m: nat, s: nat): string
    requires h < 100 && m < 100 && s < 100
  {
    Two(h) + ":" + Two(m) + ":" + Two(s)
  }

  function Date(y: nat, m: nat, d: nat): string
    requires y < 10000 && m < 100 && d < 100
  {
    Four(y) + "-" + Two(m) + "-" + Two(d)
  }

  /** An offset shows its seconds when it has any. */
  function Zone(t: Moment): string
    requires t.Valid()
  {
    (if t.east then "+" else "-") + Two(t.offHours) + ":" + Two(t.offMinutes)
    + (if t.offSeconds == 0 then "" else ":" + Two(t.offSeconds))
  }

  /** `isoformat(timespec="seconds")`. */
  function Iso(t: Moment): string
    requires t.Valid()
  {
    Date(t.year, t.month, t.day) + "T" + Clock(t.hour, t.minute, t.second) + Zone(t)
  }

  ghost predicate Showable(v: Value) {
    v.Time? ==> v.t.Valid()
  }

  /** A closed-set value: an enum word, a number, a time with an offset, or an identifier of its kind. */
  ghost predicate ValueOk(v: Value, enums: set<string>) {
    match v
    case Word(w) => w in enums
    case Number(_) => true
    case Time(t) => t.Valid()
    case Ident(k, s) => Matches(k, s)
  }

  ghost predicate AreWords(enums: set<string>) {
    forall w <- enums :: IsWord(w)
  }

  function Show(v: Value): string
    requires Showable(v)
  {
    match v
    case Word(w) => w
    case Number(n) => if n < 0 then "-" + Decimal(-n) else Decimal(n)
    case Time(t) => Iso(t)
    case Ident(_, s) => s
  }

  // ---- what a shown value looks like ----------------------------------------------------------------

  predicate ValueChar(c: char) {
    IsLower(c) || IsDigit(c) || c in {'T', '_', '.', ':', '+', '-'}
  }

  /** Value text: its own alphabet, colons only after digits, and a letter or digit at either end, a
      leading minus sign apart. */
  predicate Looks(s: string) {
    && s != ""
    && (forall i :: 0 <= i < |s| ==> ValueChar(s[i]) && (s[i] == ':' ==> i > 0 && IsDigit(s[i - 1])))
    && (IsLower(s[|s| - 1]) || IsDigit(s[|s| - 1]))
    && (s[0] == '-' ==> IsInt(s))
    && (IsLower(s[0]) || IsDigit(s[0]) || s[0] in {'T', '-'})
  }

  predicate IsWord(w: string) {
    && w != "" && IsLower(w[0]) && (IsLower(w[|w| - 1]) || IsDigit(w[|w| - 1]))
    && forall i :: 0 <= i < |w| ==> IsLower(w[i]) || IsDigit(w[i]) || w[i] == '_'
  }

  lemma LabelsAreWords(w: string)
    requires w in LABELS
    ensures IsWord(w)
  {
  }

  lemma CategoriesAreWords(w: string)
    requires w in CATEGORIES
    ensures IsWord(w)
  {
  }

  lemma StatusesAreWords(w: string)
    requires w in STATUSES
    ensures IsWord(w)
  {
  }

  lemma EnumsAreWords()
    ensures AreWords(ENUM_VALUES)
  {
    forall w | w in ENUM_VALUES ensures IsWord(w) {
      if w in LABELS {
        LabelsAreWords(w);
      } else if w in CATEGORIES {
        CategoriesAreWords(w);
      } else {
        StatusesAreWords(w);
      }
    }
  }

  lemma TwoDigits(n: nat)
    requires n < 100
    ensures |Two(n)| == 2 && IsDigit(Two(n)[0]) && IsDigit(Two(n)[1])
  {
  }

  lemma ZoneLooks(t: Moment)
    requires t.Valid()
    ensures var z := Zone(t);
            && |z| == (if t.offSeconds == 0 then 6 else 9) && z[0] in {'+', '-'}
            && z[3] == ':' && (|z| == 9 ==> z[6] == ':')
            && (forall i :: 0 < i < |z| && i != 3 && i != 6 ==> IsDigit(z[i]))
  {
    TwoDigits(t.offHours);
    TwoDigits(t.offMinutes);
    TwoDigits(t.offSeconds);
    ColonPair(Two(t.offHours), Two(t.offMinutes), Two(t.offSeconds), if t.east then "+" else "-", t.offSeconds == 0);
  }

  lemma ColonPair(a: string, b: string, c: string, sign: string, short: bool)
    requires |a| == |b| == |c| == 2 && |sign| == 1
    ensures var z := sign + a + ":" + b + (if short then "" else ":" + c);
            && |z| == (if short then 6 else 9) && z[0] == sign[0] && z[1] == a[0] && z[2] == a[1] && z[3] == ':'
            && z[4] == b[0] && z[5] == b[1] && (!short ==> z[6] == ':' && z[7] == c[0] && z[8] == c[1])
  {
  }

  /** The text has a date's dashes and digits. */
  predicate DateShape(s: string) {
    |s| == 10 && forall i :: 0 <= i < 10 ==> if i in {4, 7} then s[i] == '-' else IsDigit(s[i])
  }

  predicate ClockShape(s: string) {
    |s| == 8 && forall i :: 0 <= i < 8 ==> if i in {2, 5} then s[i] == ':' else IsDigit(s[i])
  }

  lemma Joined(a: string, b: string, c: string, d: string)
    requires |a| == |b| == |c| == |d| == 2
    requires Digits(a) && Digits(b) && Digits(c) && Digits(d)
    ensures DateShape(a + b + "-" + c + "-" + d) && ClockShape(a + ":" + b + ":" + c)
  {
  }

  lemma DateLooks(y: nat, m: nat, d: nat)
    requires y < 10000 && m < 100 && d < 100
    ensures DateShape(Date(y, m, d))
  {
    TwoDigits(y / 100);
    TwoDigits(y % 100);
    TwoDigits(m);
    TwoDigits(d);
    Joined(Two(y / 100), Two(y % 100), Two(m), Two(d));
  }

  lemma ClockLooks(h: nat, m: nat, s: nat)
    requires h < 100 && m < 100 && s < 100
    ensures ClockShape(Clock(h, m, s))
  {
    TwoDigits(h);
    TwoDigits(m);
    TwoDigits(s);
    Joined(Two(h), Two(m), Two(s), Two(s));
  }

  lemma DateThenClock(date: string, clock: string, zone: string)
    requires DateShape(date) && ClockShape(clock)
    ensures var s := date + "T" + clock + zone;
            && |s| == 19 + |zone| && s[19..] == zone
            && (forall i :: 0 <= i < 19 ==>
                  if i in {4, 7} then s[i] == '-' else if i == 10 then s[i] == 'T'
                  else if i in {13, 16} then s[i] == ':' else IsDigit(s[i]))
  {
  }

  lemma IsoParts(t: Moment)
    requires t.Valid()
    ensures |Iso(t)| == 19 + |Zone(t)| && Iso(t)[19..] == Zone(t)
    ensures forall i :: 0 <= i < 19 ==>
              if i in {4, 7} then Iso(t)[i] == '-' else if i == 10 then Iso(t)[i] == 'T'
              else if i in {13, 16} then Iso(t)[i] == ':' else IsDigit(Iso(t)[i])
  {
    DateLooks(t.year, t.month, t.day);
    ClockLooks(t.hour, t.minute, t.second);
    DateThenClock(Date(t.year, t.month, t.day), Clock(t.hour, t.minute, t.second), Zone(t));
  }

  lemma DigitIsWorth(d: nat)
    requires d < 10
    ensures IsDigit(Digit(d)) && Digit(d) as int - '0' as int == d
  {
  }

  lemma PairIsWorth(x: string, a: char, b: char)
    requires Digits(x) && IsDigit(a) && IsDigit(b)
    ensures Digits(x + [a, b])
    ensures ValueOf(x + [a, b]) == 100 * ValueOf(x) + 10 * (a as int - '0' as int) + (b as int - '0' as int)
  {
    var s := x + [a, b];
    assert s[..|s| - 1] == x + [a];
    assert (x + [a])[..|x|] == x;
  }

  lemma TwoIsWorth(n: nat)
    requires n < 100
    ensures Digits(Two(n)) && ValueOf(Two(n)) == n
  {
    DigitIsWorth(n / 10);
    DigitIsWorth(n % 10);
    PairIsWorth("", Digit(n / 10), Digit(n % 10));
    assert "" + Two(n) == Two(n);
  }

  lemma FourIsWorth(n: nat)
    requires n < 10000
    ensures |Four(n)| == 4 && Digits(Four(n)) && ValueOf(Four(n)) == n
  {
    var low := n % 100;
    TwoIsWorth(n / 100);
    DigitIsWorth(low / 10);
    DigitIsWorth(low % 10);
    PairIsWorth(Two(n / 100), Digit(low / 10), Digit(low % 10));
  }

  /** A shown time reads back as the moment: year, month and day; hour, minute and second; and the offset with its
      sign, seconds only where there are any. */
  lemma IsoSaysTheMoment(t: Moment)
    requires t.Valid()
    ensures var s := Iso(t);
            && |s| == (if t.offSeconds == 0 then 25 else 28)
            && Digits(s[..4]) && ValueOf(s[..4]) == t.year
            && Digits(s[5..7]) && ValueOf(s[5..7]) == t.month && Digits(s[8..10]) && ValueOf(s[8..10]) == t.day
            && Digits(s[11..13]) && ValueOf(s[11..13]) == t.hour
            && Digits(s[14..16]) && ValueOf(s[14..16]) == t.minute
            && Digits(s[17..19]) && ValueOf(s[17..19]) == t.second
            && (s[19] == '+' <==> t.east) && (s[19] == '-' <==> !t.east)
            && Digits(s[20..22]) && ValueOf(s[20..22]) == t.offHours
            && Digits(s[23..25]) && ValueOf(s[23..25]) == t.offMinutes
            && (t.offSeconds != 0 ==> Digits(s[26..28]) && ValueOf(s[26..28]) == t.offSeconds)
  {
    FourIsWorth(t.year);
    TwoIsWorth(t.month);
    TwoIsWorth(t.day);
    TwoIsWorth(t.hour);
    TwoIsWorth(t.minute);
    TwoIsWorth(t.second);
    TwoIsWorth(t.offHours);
    TwoIsWorth(t.offMinutes);
    TwoIsWorth(t.offSeconds);
    var sign := if t.east then "+" else "-";
    IsoLayout(Four(t.year), Two(t.month), Two(t.day), Two(t.hour), Two(t.minute), Two(t.second), sign,
              Two(t.offHours), Two(t.offMinutes), if t.offSeconds == 0 then "" else ":" + Two(t.offSeconds));
    if t.offSeconds != 0 { assert (":" + Two(t.offSeconds))[1..] == Two(t.offSeconds); }
  }

  lemma IsoLayout(y: string, mo: string, d: string, h: string, mi: string, s: string, sign: string, oh: string,
                  om: string, os: string)
    requires |y| == 4 && |mo| == |d| == |h| == |mi| == |s| == |oh| == |om| == 2 && |sign| == 1 && |os| in {0, 3}
    ensures var t := (y + "-" + mo + "-" + d) + "T" + (h + ":" + mi + ":" + s) + (sign + oh + ":" + om + os);
            && |t| == 25 + |os| && t[..4] == y && t[5..7] == mo && t[8..10] == d && t[11..13] == h && t[14..16] == mi
            && t[17..19] == s && t[19] == sign[0] && t[20..22] == oh && t[23..25] == om && t[25..] == os
            && (|os| == 3 ==> t[26..28] == os[1..])
  {
    var day, hour, off := y + "-" + mo + "-" + d, h + ":" + mi + ":" + s, sign + oh + ":" + om + os;
    var t := day + "T" + hour + off;
    assert day[..4] == y && day[5..7] == mo && day[8..10] == d;
    assert hour[..2] == h && hour[3..5] == mi && hour[6..8] == s;
    assert off[0] == sign[0] && off[1..3] == oh && off[4..6] == om && off[6..] == os;
    assert t[..10] == day && t[11..19] == hour && t[19..] == off;
  }

  /** A shown number reads back as the number. */
  lemma NumberSaysTheNumber(n: int)
    ensures var s := Show(Number(n));
            if n < 0 then s != "" && s[0] == '-' && Digits(s[1..]) && ValueOf(s[1..]) == -n
            else Digits(s) && ValueOf(s) == n
  {
    DecimalIsWorth(if n < 0 then -n else n);
    if n < 0 { assert Show(Number(n))[1..] == Decimal(-n); }
  }

  lemma IsoLooks(t: Moment)
    requires t.Valid()
    ensures Looks(Iso(t))
  {
    var s := Iso(t);
    IsoParts(t);
    ZoneLooks(t);
    forall i | 0 <= i < |s| ensures ValueChar(s[i]) && (s[i] == ':' ==> i > 0 && IsDigit(s[i - 1])) {
      if i >= 19 { assert s[i] == Zone(t)[i - 19]; }
      if i >= 20 { assert s[i - 1] == Zone(t)[i - 20]; }
    }
    assert s[|s| - 1] == Zone(t)[|Zone(t)| - 1];
  }

  lemma IdentLooks(k: Kind, s: string)
    requires Matches(k, s)
    ensures Looks(s)
  {
    match k
    case AlertId =>
      var dot :| 0 <= dot < |s| && Dotted(s, dot);
      DottedLooks(s, dot);
    case RuleRef =>
      var dash :| 0 <= dash < |s| && Hyphened(s, dash);
      HyphenedLooks(s, dash);
    case Mitre => MitreLooks(s);
    case RuleId =>
    case AgentId =>
  }

  lemma DottedLooks(s: string, dot: nat)
    requires Dotted(s, dot)
    ensures Looks(s)
  {
    forall i | 0 <= i < |s| && i != dot ensures IsDigit(s[i]) { DottedIsDigits(s, dot, i); }
  }

  lemma HyphenedLooks(s: string, dash: nat)
    requires Hyphened(s, dash)
    ensures Looks(s)
  {
    forall i | dash < i < |s| ensures IsDigit(s[i]) { assert s[i] == s[dash + 1..][i - dash - 1]; }
  }

  lemma MitreLooks(s: string)
    requires Matches(Mitre, s)
    ensures Looks(s)
  {
    forall i | 1 <= i < 5 ensures IsDigit(s[i]) { assert s[i] == s[1..5][i - 1]; }
    forall i | 6 <= i < |s| ensures IsDigit(s[i]) { assert s[i] == s[6..][i - 6]; }
  }

  lemma ValueLooks(v: Value, enums: set<string>)
    requires ValueOk(v, enums) && AreWords(enums)
    ensures Looks(Show(v))
  {
    match v
    case Word(w) =>
    case Number(n) =>
      DecimalIsDigits(if n < 0 then -n else n);
      if n < 0 { assert Show(v)[1..] == Decimal(-n); }
    case Time(t) => IsoLooks(t);
    case Ident(k, s) => IdentLooks(k, s);
  }

  // ---- which shown values the linter accepts -----------------------------------------------------

  predicate WholeMinutes(v: Value) {
    v.Time? ==> v.t.offSeconds == 0
  }

  lemma WholeMinuteTimeIsAllowed(t: Moment)
    requires t.Valid() && t.offSeconds == 0
    ensures IsDateTime(Iso(t))
  {
    IsoParts(t);
    ZoneLooks(t);
  }

  lemma OddOffsetIsRefused(t: Moment, enums: set<string>)
    requires t.Valid() && t.offSeconds != 0 && AreWords(enums)
    ensures !AllowedToken(Iso(t), enums)
  {
    var s := Iso(t);
    IsoParts(t);
    ZoneLooks(t);
    forall k: Kind ensures !Matches(k, s) {
      if Matches(k, s) { TimeIsNoIdent(k, s); }
    }
  }

  lemma DottedIsDigits(s: string, dot: nat, i: nat)
    requires Dotted(s, dot) && i < |s| && i != dot
    ensures IsDigit(s[i])
  {
    if i < dot { assert s[i] == s[..dot][i]; } else { assert s[i] == s[dot + 1..][i - dot - 1]; }
  }

  lemma TimeIsNoIdent(k: Kind, s: string)
    requires |s| > 10 && IsDigit(s[0]) && s[10] == 'T'
    ensures !Matches(k, s)
  {
    if k == AlertId {
      forall dot | 0 <= dot < |s| ensures !Dotted(s, dot) {
        if Dotted(s, dot) { DottedIsDigits(s, dot, 10); }
      }
    }
  }

  /** A shown value is accepted exactly when it is no time, or its offset has no seconds. */
  lemma ValueIsAllowedExactly(v: Value, enums: set<string>)
    requires ValueOk(v, enums) && AreWords(enums)
    ensures var s := Show(v);
            var core := if s[0] == '-' then s[1..] else s;
            |s| > 0 && (AllowedToken(core, enums) <==> WholeMinutes(v))
  {
    ValueLooks(v, enums);
    match v
    case Word(w) =>
    case Number(n) => DecimalIsDigits(if n < 0 then -n else n);
    case Time(t) =>
      IsoParts(t);
      if t.offSeconds == 0 { WholeMinuteTimeIsAllowed(t); } else { OddOffsetIsRefused(t, enums); }
    case Ident(k, s) =>
  }
}
