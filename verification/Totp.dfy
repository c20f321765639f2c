/** Two-factor sign-in: time-based one-time codes (RFC 6238 over RFC 4226), replay rejection and
    single-use recovery codes.

    The keyed digest is a parameter (`hotp` maps a counter to the code an enrolled secret gives it),
    and so is the hash that recovery codes are
    stored and looked up under (it is taken of the code stripped and in lower case). */
module Totp {
  import opened Wrappers
  import opened Decimals

  const DIGITS := 6
  const WINDOW := 1

  type Byte = b: nat | b < 256

  // ---- RFC 4226: from a digest to a code -------------------------------------------------------

  function Truncated(digest: seq<Byte>): nat
    requires |digest| == 20
  {
    var offset := digest[19] % 16;
    0x100_0000 * (digest[offset] as nat) + 0x1_0000 * (digest[offset + 1] as nat)
    + 0x100 * (digest[offset + 2] as nat) + digest[offset + 3] as nat
  }

  function CodeOf(digest: seq<Byte>): string
    requires |digest| == 20
  {
    ZFill(Str(Truncated(digest) % 0x8000_0000 % 1000000), DIGITS)
  }

  // Whatever the digest, the code is six digits long: leading zeros are kept.
  lemma CodeHasSixDigits(digest: seq<Byte>)
    requires |digest| == 20
    ensures |CodeOf(digest)| == DIGITS && AllDigits(CodeOf(digest))
    ensures Parse(CodeOf(digest)) == Truncated(digest) % 0x8000_0000 % 1000000
  {
    var n := Truncated(digest) % 0x8000_0000 % 1000000;
    StrOfFive(n);
    PaddedRoundTrip(n, DIGITS);
    StrParses(n);
    ZFillParses(Str(n), DIGITS);
  }

  // A big-endian number.
  function Number(bytes: seq<Byte>): nat {
    if bytes == [] then 0 else 256 * Number(bytes[..|bytes| - 1]) + bytes[|bytes| - 1] as nat
  }

  lemma NumberOneMore(bytes: seq<Byte>, last: Byte)
    ensures Number(bytes + [last]) == 256 * Number(bytes) + last as nat
  {
    assert (bytes + [last])[..|bytes|] == bytes;
  }

  lemma NumberOfFour(bytes: seq<Byte>)
    requires |bytes| == 4
    ensures Number(bytes) == ((bytes[0] as nat * 256 + bytes[1] as nat) * 256 + bytes[2] as nat) * 256 + bytes[3] as nat
  {
    assert [] + [bytes[0]] + [bytes[1]] + [bytes[2]] + [bytes[3]] == bytes;
    NumberOneMore([], bytes[0]);
    NumberOneMore([] + [bytes[0]], bytes[1]);
    NumberOneMore([] + [bytes[0]] + [bytes[1]], bytes[2]);
    NumberOneMore([] + [bytes[0]] + [bytes[1]] + [bytes[2]], bytes[3]);
  }

  // A code prints the four bytes that start where the low half of the last byte points, the first of them
  // without its top bit.
  lemma CodeReadsFourBytes(digest: seq<Byte>, start: nat, high: nat)
    requires |digest| == 20 && start < 16 && digest[19] as nat == 16 * high + start
    ensures var four := digest[start..start + 4];
            Parse(CodeOf(digest)) == Number([(four[0] % 128) as Byte] + four[1..]) % 1000000
  {
    hide Parse, CodeOf;
    CodeHasSixDigits(digest);
    var four := digest[start..start + 4];
    var low: Byte := four[0] % 128;
    NumberOfFour([low] + four[1..]);
    assert digest[19] % 16 == start;
    TopBitOff(four[0] as nat, 0x1_0000 * (four[1] as nat) + 0x100 * (four[2] as nat) + four[3] as nat);
  }

  lemma TopBitOff(first: nat, rest: nat)
    requires first < 256 && rest < 0x100_0000
    ensures (0x100_0000 * first + rest) % 0x8000_0000 == 0x100_0000 * (first % 128) + rest
  {
    if first >= 128 { assert 0x100_0000 * first + rest == 0x8000_0000 + (0x100_0000 * (first - 128) + rest); }
  }

  const EXAMPLE: seq<Byte> := [0x1f, 0x86, 0x98, 0x69, 0x0e, 0x02, 0xca, 0x16, 0x61, 0x85,
                               0x50, 0xef, 0x7f, 0x19, 0xda, 0x8e, 0x94, 0x5b, 0x55, 0x5a]

  lemma TruncatedExample()
    ensures Truncated(EXAMPLE) == 0x50ef7f19
  {}

  lemma PrintedExample()
    ensures Str(872921) == "872921"
  {
    assert Str(8729) == "8729";
    assert Str(87292) == "87292";
  }

  // The example of section 5.4 of RFC 4226.
  lemma CodeOfTheExample()
    ensures CodeOf(EXAMPLE) == "872921"
  {
    hide Truncated, Str;
    TruncatedExample();
    PrintedExample();
  }

  // ---- checking a code -------------------------------------------------------------------------

  predicate IsSpace(c: char) { c == ' ' || c == '\t' || c == '\n' || c == '\r' }

  function Strip(s: string): string {
    if s != "" && IsSpace(s[0]) then Strip(s[1..])
    else if s != "" && IsSpace(s[|s| - 1]) then Strip(s[..|s| - 1])
    else s
  }

  function WithoutSpaces(s: string): string {
    if s == "" then "" else (if s[0] == ' ' then "" else [s[0]]) + WithoutSpaces(s[1..])
  }

  function Tidy(code: string): string { WithoutSpaces(Strip(code)) }

  predicate WellFormed(tidy: string) { |tidy| == DIGITS && AllDigits(tidy) }

  // A counter the code may be accepted for.
  predicate Fits(hotp: nat -> string, tidy: string, now: nat, last: nat, counter: int) {
    now - WINDOW <= counter <= now + WINDOW && counter > last && hotp(counter) == tidy
  }

  ghost predicate IsVerdict(hotp: nat -> string, code: string, now: nat, last: nat, r: Option<nat>) {
    match r
    case None => !WellFormed(Tidy(code)) || forall c: int :: !Fits(hotp, Tidy(code), now, last, c)
    case Some(counter) =>
      && WellFormed(Tidy(code))
      && Fits(hotp, Tidy(code), now, last, counter)
      && forall c: int | c < counter :: !Fits(hotp, Tidy(code), now, last, c)
  }

  function Verdict(hotp: nat -> string, code: string, now: nat, last: nat): (r: Option<nat>) {
    var tidy := Tidy(code);
    if !WellFormed(tidy) then None
    else if Fits(hotp, tidy, now, last, now - 1) then Some(now - 1)
    else if Fits(hotp, tidy, now, last, now) then Some(now)
    else if Fits(hotp, tidy, now, last, now + 1) then Some(now + 1)
    else None
  }

  // The verdict is the least counter that fits, and the only answer that is.
  lemma VerdictIsTheLeastFit(hotp: nat -> string, code: string, now: nat, last: nat, r: Option<nat>)
    ensures IsVerdict(hotp, code, now, last, r) <==> r == Verdict(hotp, code, now, last)
  {
    var v, tidy := Verdict(hotp, code, now, last), Tidy(code);
    assert IsVerdict(hotp, code, now, last, v);
    assert v.Some? ==> Fits(hotp, tidy, now, last, v.value);
    assert IsVerdict(hotp, code, now, last, r) && r.Some? ==> Fits(hotp, tidy, now, last, r.value);
  }

  lemma {:induction false} DigitsAreTidy(s: string)
    requires AllDigits(s)
    ensures Tidy(s) == s
  {
    assert Strip(s) == s;
    NoSpacesInDigits(s);
  }

  lemma {:induction false} NoSpacesInDigits(s: string)
    requires AllDigits(s)
    ensures WithoutSpaces(s) == s
  {
    if s != "" { NoSpacesInDigits(s[1..]); }
  }

  lemma {:induction false} WithoutSpacesApart(a: string, b: string)
    ensures WithoutSpaces(a + b) == WithoutSpaces(a) + WithoutSpaces(b)
  {
    hide WithoutSpaces;
    if a == "" {
      assert a + b == b;
      NoneInNothing();
    } else {
      WithoutSpacesApart(a[1..], b);
      OneMoreInFront(a[0], a[1..]);
      OneMoreInFront(a[0], a[1..] + b);
      assert [a[0]] + a[1..] == a && [a[0]] + (a[1..] + b) == a + b;
    }
  }

  lemma NoneInNothing()
    ensures WithoutSpaces("") == ""
  {}

  lemma OneMoreInFront(c: char, s: string)
    ensures WithoutSpaces([c] + s) == (if c == ' ' then "" else [c]) + WithoutSpaces(s)
  {
    assert ([c] + s)[1..] == s;
  }

  // A space may stand anywhere in a code, and blanks around it.
  lemma SpacesAreIgnored(a: string, b: string, blank: char)
    requires AllDigits(a) && AllDigits(b) && IsSpace(blank)
    ensures Tidy(a + " " + b) == a + b
    ensures Tidy([blank] + a) == a && Tidy(a + [blank]) == a
  {
    hide WithoutSpaces;
    NoSpacesInDigits(a);
    StrippedAtTheEnds(a, blank);
    SpacedIsStripped(a, b);
    SpaceGoes(a, b);
    NoSpacesInDigits(a + b);
  }

  lemma SpaceGoes(a: string, b: string)
    requires AllDigits(a) && AllDigits(b)
    ensures WithoutSpaces(a + " " + b) == a + b && WithoutSpaces(a) == a && WithoutSpaces(b) == b
  {
    hide WithoutSpaces;
    NoSpacesInDigits(a);
    NoSpacesInDigits(b);
    WithoutSpacesApart(a + " ", b);
    WithoutSpacesApart(a, " ");
    OneMoreInFront(' ', "");
    NoneInNothing();
    assert [' '] + "" == " ";
  }

  lemma SpacedIsStripped(a: string, b: string)
    requires AllDigits(a) && AllDigits(b)
    ensures Strip(a + " " + b) == if a == "" || b == "" then a + b else a + " " + b
  {
    StrippedAtTheEnds(a, ' ');
    StrippedAtTheEnds(b, ' ');
    var spaced := a + " " + b;
    if a == "" {
      assert spaced == [' '] + b;
    } else if b == "" {
      assert spaced == a + [' '];
    } else {
      assert spaced[0] == a[0] && spaced[|spaced| - 1] == b[|b| - 1];
    }
  }

  lemma StrippedAtTheEnds(s: string, blank: char)
    requires AllDigits(s) && IsSpace(blank)
    ensures Strip([blank] + s) == s && Strip(s + [blank]) == s
  {
    assert ([blank] + s)[1..] == s;
    assert (s + [blank])[..|s|] == s;
    assert Strip(s) == s;
    if s == "" { assert [blank][1..] == ""; }
  }

  // A genuine code is accepted one step early, on time, or one step late, unless it was consumed.
  lemma GenuineCodeIsAccepted(hotp: nat -> string, counter: nat, now: nat, last: nat)
    requires WellFormed(hotp(counter))
    requires now - WINDOW <= counter <= now + WINDOW && counter > last
    ensures var r := Verdict(hotp, hotp(counter), now, last);
            r.Some? && last < r.value <= counter
  {
    DigitsAreTidy(hotp(counter));
    assert Fits(hotp, Tidy(hotp(counter)), now, last, counter);
  }

  // ---- an enrolment and its steps ----------------------------------------------------------------

  datatype RecoveryEntry = RecoveryEntry(hash: string, used: bool)

  datatype Enrolment = Enrolment(confirmed: bool, lastCounter: nat, recovery: seq<RecoveryEntry>)

  const BEGUN := Enrolment(false, 0, [])

  // `now` is the time step; `hashes` are those of newly generated recovery codes.
  datatype Event =
    | Confirm(code: string, now: nat, hashes: seq<string>)
    | Verify(code: string, now: nat)
    | Regenerate(hashes: seq<string>)

  datatype Outcome = ByCounter(counter: nat) | ByRecovery(index: nat) | Renewed | Refused

  function Unused(hashes: seq<string>): seq<RecoveryEntry> {
    seq(|hashes|, i requires 0 <= i < |hashes| => RecoveryEntry(hashes[i], false))
  }

  // The first unused entry stored under this digest.
  function Lookup(entries: seq<RecoveryEntry>, digest: string, from: nat): (r: Option<nat>)
    requires from <= |entries|
    ensures r.Some? ==> from <= r.value < |entries| && entries[r.value] == RecoveryEntry(digest, false)
    decreases |entries| - from
  {
    if from == |entries| then None
    else if entries[from] == RecoveryEntry(digest, false) then Some(from)
    else Lookup(entries, digest, from + 1)
  }

  function Step(hotp: nat -> string, hash: string -> string, m: Enrolment, e: Event): (Enrolment, Outcome) {
    match e
    case Confirm(code, now, hashes) => (
      match Verdict(hotp, code, now, m.lastCounter)
      case None => (m, Refused)
      case Some(c) => (Enrolment(true, c, Unused(hashes)), ByCounter(c)))
    case Verify(code, now) =>
      if !m.confirmed then (m, Refused)
      else (
        match Verdict(hotp, code, now, m.lastCounter)
        case Some(c) => (m.(lastCounter := c), ByCounter(c))
        case None =>
          match Lookup(m.recovery, hash(code), 0)
          case Some(i) => (m.(recovery := m.recovery[i := m.recovery[i].(used := true)]), ByRecovery(i))
          case None => (m, Refused))
    case Regenerate(hashes) =>
      if !m.confirmed then (m, Refused) else (m.(recovery := Unused(hashes)), Renewed)
  }

  // ---- what a sign-in accepts ---------------------------------------------------------------------

  ghost predicate CodeFits(hotp: nat -> string, m: Enrolment, code: string, now: nat, counter: int) {
    && WellFormed(Tidy(code)) && counter in {now - 1, now, now + 1}
    && counter > m.lastCounter && hotp(counter) == Tidy(code)
  }

  lemma FitsAlike(hotp: nat -> string, m: Enrolment, code: string, now: nat)
    ensures forall c: int :: CodeFits(hotp, m, code, now, c) <==>
              WellFormed(Tidy(code)) && Fits(hotp, Tidy(code), now, m.lastCounter, c)
  {}

  predicate Redeems(m: Enrolment, digest: string, i: nat) {
    i < |m.recovery| && !m.recovery[i].used && m.recovery[i].hash == digest
  }

  lemma {:induction false} LookupFindsTheFirst(entries: seq<RecoveryEntry>, digest: string, from: nat)
    requires from <= |entries|
    ensures var r := Lookup(entries, digest, from);
            var open := RecoveryEntry(digest, false);
            && (forall i: nat | from <= i < (if r.Some? then r.value else |entries|) :: entries[i] != open)
    decreases |entries| - from
  {
    if from < |entries| { LookupFindsTheFirst(entries, digest, from + 1); }
  }

  // A confirmed enrolment accepts a code of the neighbouring steps that is newer than the last one, and
  // takes the oldest such step; failing that a recovery entry not yet used, and marks the first; and
  // nothing else.
  lemma SignInIsExact(hotp: nat -> string, hash: string -> string, m: Enrolment, code: string, now: nat)
    ensures var (next, outcome) := Step(hotp, hash, m, Verify(code, now));
            if m.confirmed && exists c: int :: CodeFits(hotp, m, code, now, c)
            then
              && outcome.ByCounter? && CodeFits(hotp, m, code, now, outcome.counter)
              && next == m.(lastCounter := outcome.counter)
              && forall c: int | c < outcome.counter :: !CodeFits(hotp, m, code, now, c)
            else if m.confirmed && exists i: nat :: Redeems(m, hash(code), i)
            then
              && outcome.ByRecovery? && Redeems(m, hash(code), outcome.index)
              && next == m.(recovery := m.recovery[outcome.index := RecoveryEntry(hash(code), true)])
              && forall i: nat | i < outcome.index :: !Redeems(m, hash(code), i)
            else outcome == Refused && next == m
  {
    hide Verdict, Lookup, Tidy, WellFormed;
    var v, tidy := Verdict(hotp, code, now, m.lastCounter), Tidy(code);
    VerdictIsTheLeastFit(hotp, code, now, m.lastCounter, v);
    FitsAlike(hotp, m, code, now);
    LookupFindsTheFirst(m.recovery, hash(code), 0);
    var open := RecoveryEntry(hash(code), false);
    assert forall i: nat :: Redeems(m, hash(code), i) <==> i < |m.recovery| && m.recovery[i] == open;
  }

  // Confirming takes such a code too and brings a list of unused entries; a confirmed enrolment may renew it.
  lemma EnrolmentIsExact(
    hotp: nat -> string, hash: string -> string, m: Enrolment, code: string, now: nat, hashes: seq<string>)
    ensures var (next, outcome) := Step(hotp, hash, m, Confirm(code, now, hashes));
            if exists c: int :: CodeFits(hotp, m, code, now, c)
            then
              && outcome.ByCounter? && CodeFits(hotp, m, code, now, outcome.counter)
              && next.confirmed && next.lastCounter == outcome.counter && AllUnused(next.recovery, hashes)
            else outcome == Refused && next == m
    ensures var (next, outcome) := Step(hotp, hash, m, Regenerate(hashes));
            if m.confirmed
            then
              && outcome == Renewed && next == m.(recovery := next.recovery) && AllUnused(next.recovery, hashes)
            else outcome == Refused && next == m
  {
    hide Verdict, Tidy, WellFormed;
    var v, tidy := Verdict(hotp, code, now, m.lastCounter), Tidy(code);
    VerdictIsTheLeastFit(hotp, code, now, m.lastCounter, v);
    FitsAlike(hotp, m, code, now);
  }

  ghost predicate AllUnused(entries: seq<RecoveryEntry>, hashes: seq<string>) {
    |entries| == |hashes| && forall i | 0 <= i < |hashes| :: !entries[i].used && entries[i].hash == hashes[i]
  }

  // ---- runs of one enrolment, with a journal of what was accepted --------------------------------

  // One stored recovery entry: its place in the list that was current at the time.
  datatype EntryId = EntryId(list: nat, index: nat)

  datatype Journal = Journal(now: Enrolment, counters: seq<nat>, lists: nat, used: seq<EntryId>)

  function Recorded(j: Journal, next: Enrolment, newList: bool, outcome: Outcome): Journal {
    Journal(
      next,
      if outcome.ByCounter? then j.counters + [outcome.counter] else j.counters,
      if newList then j.lists + 1 else j.lists,
      if outcome.ByRecovery? then j.used + [EntryId(j.lists, outcome.index)] else j.used)
  }

  function Run(hotp: nat -> string, hash: string -> string, events: seq<Event>): Journal {
    if events == [] then Journal(BEGUN, [], 0, [])
    else
      var j, e := Run(hotp, hash, events[..|events| - 1]), events[|events| - 1];
      var (next, outcome) := Step(hotp, hash, j.now, e);
      Recorded(j, next, outcome.Renewed? || (e.Confirm? && outcome.ByCounter?), outcome)
  }

  ghost predicate Increasing(cs: seq<nat>) {
    forall i, j | 0 <= i < j < |cs| :: cs[i] < cs[j]
  }

  ghost predicate Within(cs: seq<nat>, lo: int, hi: int) {
    forall i | 0 <= i < |cs| :: lo <= cs[i] <= hi
  }

  ghost predicate NoRepeats(ids: seq<EntryId>) {
    forall i, j | 0 <= i < j < |ids| :: ids[i] != ids[j]
  }

  ghost predicate IsUsed(m: Enrolment, k: nat) { k < |m.recovery| && m.recovery[k].used }

  // What a step does to the marks it leaves: it consumes a newer counter, or it marks an unused
  // entry, or it stores a whole new list; nothing else is ever unmarked.
  ghost predicate Marks(m: Enrolment, next: Enrolment, newList: bool, outcome: Outcome) {
    && (if outcome.ByCounter? then outcome.counter == next.lastCounter > m.lastCounter
        else next.lastCounter == m.lastCounter)
    && (newList ==> !outcome.ByRecovery? && forall k: nat :: !IsUsed(next, k))
    && (!newList && outcome.ByRecovery? ==>
          && outcome.index < |m.recovery| && !IsUsed(m, outcome.index)
          && forall k: nat :: IsUsed(next, k) <==> IsUsed(m, k) || k == outcome.index)
    && (!newList && !outcome.ByRecovery? ==> next.recovery == m.recovery)
  }

  lemma StepMarks(hotp: nat -> string, hash: string -> string, m: Enrolment, e: Event)
    ensures var (next, outcome) := Step(hotp, hash, m, e);
            Marks(m, next, outcome.Renewed? || (e.Confirm? && outcome.ByCounter?), outcome)
  {}

  ghost predicate Sound(j: Journal) {
    && Increasing(j.counters) && Within(j.counters, 1, j.now.lastCounter)
    && NoRepeats(j.used)
    && (forall i | 0 <= i < |j.used| :: j.used[i].list <= j.lists)
    && (forall k: nat :: EntryId(j.lists, k) in j.used <==> IsUsed(j.now, k))
  }

  lemma RecordingIsSound(j: Journal, next: Enrolment, newList: bool, outcome: Outcome)
    requires Sound(j) && Marks(j.now, next, newList, outcome)
    ensures Sound(Recorded(j, next, newList, outcome))
  {
    var j' := Recorded(j, next, newList, outcome);
    forall k: nat ensures EntryId(j'.lists, k) in j'.used <==> IsUsed(j'.now, k) {
      assert EntryId(j.lists, k) in j.used <==> IsUsed(j.now, k);
    }
  }

  // In every run of an enrolment the accepted counters strictly increase, so none is accepted twice,
  // and no stored recovery entry is accepted twice.
  lemma {:induction false} NothingIsAcceptedTwice(hotp: nat -> string, hash: string -> string, events: seq<Event>)
    ensures Sound(Run(hotp, hash, events))
  {
    if events != [] {
      var init, e := events[..|events| - 1], events[|events| - 1];
      var j := Run(hotp, hash, init);
      NothingIsAcceptedTwice(hotp, hash, init);
      StepMarks(hotp, hash, j.now, e);
      var (next, outcome) := Step(hotp, hash, j.now, e);
      RecordingIsSound(j, next, outcome.Renewed? || (e.Confirm? && outcome.ByCounter?), outcome);
    }
  }

  predicate During(e: Event, first: nat, last: nat) {
    match e
    case Confirm(_, now, _) => first <= now <= last
    case Verify(_, now) => first <= now <= last
    case Regenerate(_) => true
  }

  lemma {:induction false} CountersAreNearby(
    hotp: nat -> string, hash: string -> string, events: seq<Event>, first: nat, last: nat)
    requires forall k | 0 <= k < |events| :: During(events[k], first, last)
    ensures Within(Run(hotp, hash, events).counters, first - WINDOW, last + WINDOW)
  {
    if events != [] {
      CountersAreNearby(hotp, hash, events[..|events| - 1], first, last);
      var e := events[|events| - 1];
      assert During(e, first, last);
    }
  }

  lemma {:induction false} IncreasingIsShort(cs: seq<nat>, lo: int, hi: int)
    requires Increasing(cs) && Within(cs, lo, hi) && lo <= hi + 1
    ensures |cs| <= hi - lo + 1
  {
    if cs != [] {
      var init, top := cs[..|cs| - 1], cs[|cs| - 1] as int;
      assert Within(init, lo, top - 1);
      IncreasingIsShort(init, lo, top - 1);
    }
  }

  // Guessing or not, an enrolment used during the time steps first..last accepts at most
  // last - first + 3 codes.
  lemma AcceptedCodesAreBounded(
    hotp: nat -> string, hash: string -> string, events: seq<Event>, first: nat, last: nat)
    requires first <= last && forall k | 0 <= k < |events| :: During(events[k], first, last)
    ensures |Run(hotp, hash, events).counters| <= last - first + 3
  {
    NothingIsAcceptedTwice(hotp, hash, events);
    CountersAreNearby(hotp, hash, events, first, last);
    IncreasingIsShort(Run(hotp, hash, events).counters, first - WINDOW, last + WINDOW);
  }

  // ---- the service -------------------------------------------------------------------------------

  class MFAService {
    var confirmed: bool
    var lastCounter: nat
    var recovery: seq<RecoveryEntry>

    function State(): Enrolment
      reads this
    {
      Enrolment(confirmed, lastCounter, recovery)
    }

    constructor BeginEnrolment()
      ensures State() == BEGUN
    {
      confirmed, lastCounter, recovery := false, 0, [];
    }

    static method VerifyCode(hotp: nat -> string, code: string, now: nat, last: nat) returns (r: Option<nat>)
      ensures IsVerdict(hotp, code, now, last, r)
    {
      var tidy := Tidy(code);
      if !AllDigits(tidy) || |tidy| != DIGITS {
        return None;
      }
      var drift := -WINDOW;
      while drift <= WINDOW
        invariant -WINDOW <= drift <= WINDOW + 1
        invariant forall c: int | c < now + drift :: !Fits(hotp, tidy, now, last, c)
      {
        var counter := now + drift;
        if counter <= last {
          drift := drift + 1;
          continue;
        }
        if hotp(counter) == tidy {
          return Some(counter);
        }
        drift := drift + 1;
      }
      r := None;
    }

    method ConfirmEnrolment(hotp: nat -> string, hash: string -> string, code: string, now: nat, hashes: seq<string>)
      returns (outcome: Outcome)
      modifies this
      ensures (State(), outcome) == Step(hotp, hash, old(State()), Confirm(code, now, hashes))
    {
      var counter := VerifyCode(hotp, code, now, lastCounter);
      VerdictIsTheLeastFit(hotp, code, now, lastCounter, counter);
      if counter.None? {
        return Refused;
      }
      confirmed, lastCounter, recovery := true, counter.value, Unused(hashes);
      outcome := ByCounter(counter.value);
    }

    method VerifyLogin(hotp: nat -> string, hash: string -> string, code: string, now: nat) returns (outcome: Outcome)
      modifies this
      ensures (State(), outcome) == Step(hotp, hash, old(State()), Verify(code, now))
    {
      if !confirmed {
        return Refused;
      }
      var counter := VerifyCode(hotp, code, now, lastCounter);
      VerdictIsTheLeastFit(hotp, code, now, lastCounter, counter);
      if counter.Some? {
        lastCounter := counter.value;
        return ByCounter(counter.value);
      }
      var digest := hash(code);
      for i := 0 to |recovery|
        invariant State() == old(State())
        invariant Lookup(recovery, digest, 0) == Lookup(recovery, digest, i)
      {
        if recovery[i].hash == digest && !recovery[i].used {
          recovery := recovery[i := recovery[i].(used := true)];
          return ByRecovery(i);
        }
      }
      outcome := Refused;
    }

    method RegenerateRecoveryCodes(hotp: nat -> string, hash: string -> string, hashes: seq<string>)
      returns (outcome: Outcome)
      modifies `recovery
      ensures (State(), outcome) == Step(hotp, hash, old(State()), Regenerate(hashes))
    {
      if !confirmed {
        return Refused;
      }
      recovery := Unused(hashes);
      outcome := Renewed;
    }
  }
}
