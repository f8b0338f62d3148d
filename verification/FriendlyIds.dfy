/** Human-readable record numbers: sequence starts (schema/sequences.py) and printing (mapping/types.py). */
module FriendlyIds {
  import opened Prelude
  import opened SchemaIR

  // ---------- printing ----------

  predicate IsDigit(c: char) {
    '0' <= c <= '9'
  }

  predicate AllDigits(s: string) {
    forall i :: 0 <= i < |s| ==> IsDigit(s[i])
  }

  function DigitChar(d: nat): (c: char)
    requires d < 10
    ensures IsDigit(c) && (c - '0') as int == d
  {
    '0' + d as char
  }

  /** Decimal text without leading zeros. */
  function Decimal(n: nat): (s: string)
    ensures |s| > 0 && AllDigits(s)
  {
    if n < 10 then [DigitChar(n)] else Decimal(n / 10) + [DigitChar(n % 10)]
  }

  function Zeros(n: nat): (s: string)
    ensures |s| == n && AllDigits(s)
  {
    seq(n, i => '0')
  }

  /** Zero-padded to `padWidth`; a longer number keeps all its digits. */
  function FormatFriendlyId(prefix: string, value: nat, padWidth: nat): string {
    var body := Decimal(value);
    prefix + if |body| < padWidth then Zeros(padWidth - |body|) + body else body
  }

  // ---------- reading back ----------

  /** What a cast of digits to a number yields. */
  function NumberOf(s: string): nat
    requires AllDigits(s)
  {
    if s == "" then 0 else NumberOf(s[..|s| - 1]) * 10 + (s[|s| - 1] - '0') as nat
  }

  /** The prefix followed by digits only, at least one. */
  predicate Numbered(prefix: string, v: string) {
    prefix <= v && |v| > |prefix| && AllDigits(v[|prefix|..])
  }

  lemma {:induction false} NumberOfDecimal(n: nat)
    ensures NumberOf(Decimal(n)) == n
  {
    if n >= 10 {
      NumberOfDecimal(n / 10);
      assert Decimal(n)[..|Decimal(n)| - 1] == Decimal(n / 10);
    }
  }

  lemma {:induction false} LeadingZeros(k: nat, s: string)
    requires AllDigits(s)
    ensures AllDigits(Zeros(k) + s) && NumberOf(Zeros(k) + s) == NumberOf(s)
    decreases k + |s|
  {
    var all := Zeros(k) + s;
    if s != "" {
      assert all[..|all| - 1] == Zeros(k) + s[..|s| - 1];
      LeadingZeros(k, s[..|s| - 1]);
    } else if k > 0 {
      assert all[..k - 1] == Zeros(k - 1) + "";
      LeadingZeros(k - 1, "");
    }
  }

  /** Padding and overflow included, the number can be read back from the printed id. */
  lemma FormatRoundTrip(prefix: string, value: nat, padWidth: nat)
    ensures Numbered(prefix, FormatFriendlyId(prefix, value, padWidth))
    ensures NumberOf(FormatFriendlyId(prefix, value, padWidth)[|prefix|..]) == value
    ensures |FormatFriendlyId(prefix, value, padWidth)| >= |prefix| + padWidth
  {
    var body := Decimal(value);
    var id := FormatFriendlyId(prefix, value, padWidth);
    NumberOfDecimal(value);
    if |body| < padWidth {
      LeadingZeros(padWidth - |body|, body);
      assert id[|prefix|..] == Zeros(padWidth - |body|) + body;
    } else {
      assert id[|prefix|..] == body;
    }
  }

  /** Different numbers never print alike, whatever the pad widths. */
  lemma FormatInjective(prefix: string, a: nat, b: nat, padA: nat, padB: nat)
    requires FormatFriendlyId(prefix, a, padA) == FormatFriendlyId(prefix, b, padB)
    ensures a == b
  {
    FormatRoundTrip(prefix, a, padA);
    FormatRoundTrip(prefix, b, padB);
  }

  // ---------- sequence starts ----------

  /** The stored values of a column, with nulls. */
  type Column = seq<Option<string>>

  /** Table name, column name, values. */
  type LiveData = map<string, map<string, Column>>

  /** The largest number after the prefix among the numbered values. */
  function MaxNumber(prefix: string, values: Column): Option<nat> {
    if values == [] then None
    else
      var before := MaxNumber(prefix, values[..|values| - 1]);
      match values[|values| - 1]
      case None => before
      case Some(v) =>
        if !Numbered(prefix, v) then before
        else if before.Some? && before.value >= NumberOf(v[|prefix|..]) then before
        else Some(NumberOf(v[|prefix|..]))
  }

  function MaxNumericPlusOne(db: LiveData, s: SequenceIR): nat {
    if s.tableName == "" || s.columnName == "" || s.prefix == "" then 1
    else if s.tableName !in db || s.columnName !in db[s.tableName] then 1
    else
      match MaxNumber(s.prefix, db[s.tableName][s.columnName])
      case None => 1
      case Some(n) => n + 1
  }

  /** What the column holds; nothing while the table or the column does not exist. */
  function Stored(db: LiveData, s: SequenceIR): Column {
    if s.tableName in db && s.columnName in db[s.tableName] then db[s.tableName][s.columnName] else []
  }

  function Resolved(db: LiveData, s: SequenceIR): SequenceIR {
    if s.resolveStartFromData then s.(start := MaxNumericPlusOne(db, s), resolveStartFromData := false) else s
  }

  /** A resolved start is one above every number in use, or 1; an explicit one is kept. */
  lemma ResolvedExactly(db: LiveData, s: SequenceIR)
    ensures !s.resolveStartFromData ==> Resolved(db, s) == s
    ensures s.resolveStartFromData ==>
              && Resolved(db, s) == s.(start := Resolved(db, s).start, resolveStartFromData := false)
              && (s.tableName != "" && s.columnName != "" && s.prefix != "" ==>
                    forall v :: Some(v) in Stored(db, s) && Numbered(s.prefix, v) ==> NumberOf(v[|s.prefix|..]) < Resolved(db, s).start)
              && (Resolved(db, s).start == 1 ||
                  exists v :: Some(v) in Stored(db, s) && Numbered(s.prefix, v) && NumberOf(v[|s.prefix|..]) + 1 == Resolved(db, s).start)
  {
    if s.resolveStartFromData {
      forall v | Some(v) in Stored(db, s) && Numbered(s.prefix, v) ensures MaxNumber(s.prefix, Stored(db, s)).Some?
                 && NumberOf(v[|s.prefix|..]) <= MaxNumber(s.prefix, Stored(db, s)).value
      {
        MaxNumberBounds(s.prefix, Stored(db, s), v);
      }
      if Resolved(db, s).start != 1 {
        MaxNumberAttained(s.prefix, Stored(db, s));
      }
    }
  }

  method ResolveSequenceStarts(db: LiveData, desired: SchemaIR) returns (r: SchemaIR)
    ensures r.tables == desired.tables && |r.sequences| == |desired.sequences|
    ensures forall i :: 0 <= i < |desired.sequences| ==> r.sequences[i] == Resolved(db, desired.sequences[i])
  {
    var resolved: seq<SequenceIR> := [];
    for i := 0 to |desired.sequences|
      invariant |resolved| == i
      invariant forall k :: 0 <= k < i ==> resolved[k] == Resolved(db, desired.sequences[k])
    {
      var s := desired.sequences[i];
      if !s.resolveStartFromData {
        resolved := resolved + [s];
      } else {
        var start := MaxNumericPlusOne(db, s);
        resolved := resolved + [SequenceIR(s.name, start, s.tableName, s.columnName, s.prefix, false)];
      }
    }
    return SchemaIR(desired.tables, resolved);
  }

  lemma {:induction false} MaxNumberBounds(prefix: string, values: Column, v: string)
    requires Some(v) in values && Numbered(prefix, v)
    ensures MaxNumber(prefix, values).Some? && NumberOf(v[|prefix|..]) <= MaxNumber(prefix, values).value
  {
    var init := values[..|values| - 1];
    assert values == init + [values[|values| - 1]];
    if Some(v) in init {
      MaxNumberBounds(prefix, init, v);
    }
  }

  lemma {:induction false} MaxNumberAttained(prefix: string, values: Column)
    requires MaxNumber(prefix, values).Some?
    ensures exists v :: Some(v) in values && Numbered(prefix, v) && NumberOf(v[|prefix|..]) == MaxNumber(prefix, values).value
  {
    var init := values[..|values| - 1];
    assert values == init + [values[|values| - 1]];
    if MaxNumber(prefix, values) == MaxNumber(prefix, init) {
      MaxNumberAttained(prefix, init);
      var v :| Some(v) in init && Numbered(prefix, v) && NumberOf(v[|prefix|..]) == MaxNumber(prefix, init).value;
      assert Some(v) in values;
    } else {
      assert values[|values| - 1] in values;
    }
  }

  // ---------- runs of creates ----------

  /** A create takes the next number, also when its transaction then fails; records may be deleted. */
  datatype Event =
    | Create(padWidth: nat)
    | Burn
    | Delete(id: string)

  datatype Counter = Counter(next: nat, values: Column, issued: seq<string>)

  function Step(prefix: string, c: Counter, e: Event): Counter {
    match e
    case Create(padWidth) =>
      var id := FormatFriendlyId(prefix, c.next, padWidth);
      Counter(c.next + 1, c.values + [Some(id)], c.issued + [id])
    case Burn => c.(next := c.next + 1)
    case Delete(id) => c.(values := Filter(c.values, (v: Option<string>) => v != Some(id)))
  }

  function RunEvents(prefix: string, c: Counter, events: seq<Event>): Counter {
    if events == [] then c else Step(prefix, RunEvents(prefix, c, events[..|events| - 1]), events[|events| - 1])
  }

  /** The pad widths that creates may use; a class keeps one, a changed definition brings another. */
  type Widths = nat -> bool

  ghost predicate Uses(events: seq<Event>, widths: Widths) {
    forall i :: 0 <= i < |events| && events[i].Create? ==> widths(events[i].padWidth)
  }

  /** The id is a number from `start` on, below `next`, in a permitted width. */
  ghost predicate Printed(prefix: string, start: nat, next: nat, widths: Widths, id: string) {
    exists m: nat, pad: nat :: start <= m < next && widths(pad) && id == FormatFriendlyId(prefix, m, pad)
  }

  ghost predicate IssuedInOrder(prefix: string, start: nat, widths: Widths, c: Counter) {
    && start <= c.next
    && NoDup(c.issued)
    && forall id :: id in c.issued ==> Printed(prefix, start, c.next, widths, id)
  }

  lemma PrintedNumber(prefix: string, start: nat, next: nat, widths: Widths, id: string)
    requires Printed(prefix, start, next, widths, id)
    ensures Numbered(prefix, id) && start <= NumberOf(id[|prefix|..]) < next
  {
    var m: nat, pad: nat :| start <= m < next && widths(pad) && id == FormatFriendlyId(prefix, m, pad);
    FormatRoundTrip(prefix, m, pad);
  }

  lemma StepInOrder(prefix: string, start: nat, widths: Widths, c: Counter, e: Event)
    requires IssuedInOrder(prefix, start, widths, c) && (e.Create? ==> widths(e.padWidth))
    ensures IssuedInOrder(prefix, start, widths, Step(prefix, c, e))
  {
    var next := Step(prefix, c, e);
    forall id | id in c.issued
      ensures Printed(prefix, start, next.next, widths, id)
      ensures Numbered(prefix, id) && NumberOf(id[|prefix|..]) < c.next
    {
      PrintedNumber(prefix, start, c.next, widths, id);
    }
    if e.Create? {
      var id := FormatFriendlyId(prefix, c.next, e.padWidth);
      FormatRoundTrip(prefix, c.next, e.padWidth);
      assert Printed(prefix, start, next.next, widths, id);
      NoDupConcat(c.issued, [id]);
    }
  }

  lemma {:induction false} RunInOrder(prefix: string, start: nat, widths: Widths, initial: Column, events: seq<Event>)
    requires Uses(events, widths)
    ensures IssuedInOrder(prefix, start, widths, RunEvents(prefix, Counter(start, initial, []), events))
  {
    if events != [] {
      var init := events[..|events| - 1];
      RunInOrder(prefix, start, widths, initial, init);
      StepInOrder(prefix, start, widths, RunEvents(prefix, Counter(start, initial, []), init), events[|events| - 1]);
    }
  }

  /** Whatever the start, no create ever gets an id that an earlier one got. */
  lemma NeverIssuedTwice(prefix: string, start: nat, initial: Column, events: seq<Event>)
    ensures NoDup(RunEvents(prefix, Counter(start, initial, []), events).issued)
  {
    RunInOrder(prefix, start, (pad: nat) => true, initial, events);
  }

  // ---------- when a start is safe for the records that exist ----------

  /** This run issues no id that the column held at the start. */
  ghost predicate SparesStored(prefix: string, start: nat, initial: Column, events: seq<Event>) {
    forall id :: id in RunEvents(prefix, Counter(start, initial, []), events).issued ==> Some(id) !in initial
  }

  /** No stored value prints a number from `start` on in a permitted width. */
  ghost predicate ClearFrom(prefix: string, start: nat, initial: Column, widths: Widths) {
    forall m: nat, pad: nat :: start <= m && widths(pad) ==> Some(FormatFriendlyId(prefix, m, pad)) !in initial
  }

  function Burns(n: nat): seq<Event> {
    seq(n, i => Burn)
  }

  lemma {:induction false} BurnsSkip(prefix: string, start: nat, initial: Column, n: nat)
    ensures RunEvents(prefix, Counter(start, initial, []), Burns(n)) == Counter(start + n, initial, [])
  {
    if n > 0 {
      assert Burns(n)[..n - 1] == Burns(n - 1);
      BurnsSkip(prefix, start, initial, n - 1);
    }
  }

  /** Every id from the start on is reached by some run. */
  lemma EveryNumberReached(prefix: string, start: nat, initial: Column, widths: Widths, m: nat, pad: nat)
    requires start <= m && widths(pad)
    ensures exists events :: Uses(events, widths)
              && RunEvents(prefix, Counter(start, initial, []), events).issued == [FormatFriendlyId(prefix, m, pad)]
  {
    var events := Burns(m - start) + [Create(pad)];
    assert events[..|events| - 1] == Burns(m - start);
    BurnsSkip(prefix, start, initial, m - start);
    assert Uses(events, widths);
  }

  /**
   For every prefix, start and column: no run of creates in the permitted widths issues a stored id if
   and only if no stored value prints a number from the start on in one of those widths.
   */
  lemma StartIsFreshExactly(prefix: string, start: nat, initial: Column, widths: Widths)
    ensures (forall events :: Uses(events, widths) ==> SparesStored(prefix, start, initial, events))
       <==> ClearFrom(prefix, start, initial, widths)
  {
    if ClearFrom(prefix, start, initial, widths) {
      forall events | Uses(events, widths) ensures SparesStored(prefix, start, initial, events) {
        RunInOrder(prefix, start, widths, initial, events);
      }
    }
    if forall events :: Uses(events, widths) ==> SparesStored(prefix, start, initial, events) {
      forall m: nat, pad: nat | start <= m && widths(pad) ensures Some(FormatFriendlyId(prefix, m, pad)) !in initial {
        EveryNumberReached(prefix, start, initial, widths, m, pad);
        var events :| Uses(events, widths)
                      && RunEvents(prefix, Counter(start, initial, []), events).issued == [FormatFriendlyId(prefix, m, pad)];
        assert SparesStored(prefix, start, initial, events);
      }
    }
  }

  /** Digits are the decimal text of their number, padded to their length. */
  lemma {:induction false} DigitsArePadded(s: string)
    requires AllDigits(s) && s != ""
    ensures |Decimal(NumberOf(s))| <= |s| && s == Zeros(|s| - |Decimal(NumberOf(s))|) + Decimal(NumberOf(s))
  {
    var init, last := s[..|s| - 1], s[|s| - 1];
    var n, d := NumberOf(init), (last - '0') as nat;
    assert NumberOf(s) == n * 10 + d && DigitChar(d) == last;
    assert s == init + [last];
    if init != "" {
      DigitsArePadded(init);
      if n > 0 {
        assert NumberOf(s) / 10 == n && NumberOf(s) % 10 == d;
      } else {
        assert Decimal(0) == "0";
        assert init == Zeros(|init|);
      }
    }
  }

  /** Every numbered value is a printed id, in its own width. */
  lemma NumberedIsPrinted(prefix: string, v: string)
    requires Numbered(prefix, v)
    ensures v == FormatFriendlyId(prefix, NumberOf(v[|prefix|..]), |v| - |prefix|)
  {
    DigitsArePadded(v[|prefix|..]);
    assert v == prefix + v[|prefix|..];
    assert Zeros(0) == "";
  }

  lemma {:induction false} NoLeadingZero(n: nat)
    ensures n > 0 ==> Decimal(n)[0] != '0'
    ensures n == 0 ==> Decimal(n) == "0"
  {
    if n >= 10 {
      NoLeadingZero(n / 10);
    }
  }

  /**
   The printed id is the one string that has the prefix and the number, reaches the pad width, and beyond
   it starts with no zero.
   */
  lemma FormatExactly(prefix: string, value: nat, padWidth: nat, id: string)
    ensures id == FormatFriendlyId(prefix, value, padWidth) <==>
            && Numbered(prefix, id) && NumberOf(id[|prefix|..]) == value
            && |id| >= |prefix| + padWidth
            && (|id| > |prefix| + padWidth ==> |id| == |prefix| + 1 || id[|prefix|] != '0')
  {
    NoLeadingZero(value);
    FormatRoundTrip(prefix, value, padWidth);
    if Numbered(prefix, id) && NumberOf(id[|prefix|..]) == value {
      var body := id[|prefix|..];
      DigitsArePadded(body);
      assert id == prefix + body && id[|prefix|] == body[0];
      if |body| > |Decimal(value)| {
        assert body[0] == '0';
      } else {
        assert Zeros(0) + Decimal(value) == Decimal(value);
      }
    }
  }

  /** The largest stored number decides: in any widths, a start is safe if and only if it lies above it. */
  lemma StartAboveMaximumExactly(prefix: string, start: nat, initial: Column)
    ensures ClearFrom(prefix, start, initial, (pad: nat) => true) <==>
            MaxNumber(prefix, initial).None? || MaxNumber(prefix, initial).value < start
  {
    if MaxNumber(prefix, initial).None? || MaxNumber(prefix, initial).value < start {
      forall m: nat, pad: nat | start <= m ensures Some(FormatFriendlyId(prefix, m, pad)) !in initial {
        FormatRoundTrip(prefix, m, pad);
        if Some(FormatFriendlyId(prefix, m, pad)) in initial {
          MaxNumberBounds(prefix, initial, FormatFriendlyId(prefix, m, pad));
        }
      }
    } else {
      MaxNumberAttained(prefix, initial);
      var v :| Some(v) in initial && Numbered(prefix, v) && NumberOf(v[|prefix|..]) == MaxNumber(prefix, initial).value;
      NumberedIsPrinted(prefix, v);
    }
  }

  /** A start above the largest stored number is safe in every run, whatever widths the creates use. */
  lemma AboveMaximumSuffices(prefix: string, start: nat, initial: Column, events: seq<Event>)
    requires MaxNumber(prefix, initial).None? || MaxNumber(prefix, initial).value < start
    ensures SparesStored(prefix, start, initial, events)
  {
    var any := (pad: nat) => true;
    StartAboveMaximumExactly(prefix, start, initial);
    assert ClearFrom(prefix, start, initial, any);
    StartIsFreshExactly(prefix, start, initial, any);
    assert Uses(events, any);
  }

  /**
   A sequence created with the resolved start never allocates an id that the column already held or
   that an earlier create got, over any run of creates, failed creates and deletions.
   */
  lemma AllocationsAreNew(db: LiveData, s: SequenceIR, events: seq<Event>)
    requires s.resolveStartFromData && s.tableName != "" && s.columnName != "" && s.prefix != ""
    ensures var initial := Stored(db, s);
            var end := RunEvents(s.prefix, Counter(Resolved(db, s).start, initial, []), events);
            && NoDup(end.issued)
            && forall id :: id in end.issued ==> Some(id) !in initial
  {
    var initial := Stored(db, s);
    NeverIssuedTwice(s.prefix, MaxNumericPlusOne(db, s), initial, events);
    AboveMaximumSuffices(s.prefix, MaxNumericPlusOne(db, s), initial, events);
  }

  /** The start is tight: it is 1, or one more than a number that is in use. */
  lemma StartIsTight(db: LiveData, s: SequenceIR)
    requires MaxNumericPlusOne(db, s) != 1
    ensures exists v :: Some(v) in Stored(db, s) && Numbered(s.prefix, v)
                        && NumberOf(v[|s.prefix|..]) + 1 == MaxNumericPlusOne(db, s)
  {
    MaxNumberAttained(s.prefix, Stored(db, s));
  }

  /** A fixed start promises nothing about existing records: its first id may already be taken. */
  lemma FixedStartMayCollide()
    ensures var s := SequenceIR("friendly_id_t", 7, "ticket", "number", "T", false);
            var db: LiveData := map["ticket" := map["number" := [Some("T0007")]]];
            && Resolved(db, s).start == 7
            && Some(FormatFriendlyId("T", Resolved(db, s).start, 4)) in db["ticket"]["number"]
  {
    assert Decimal(7) == "7";
    assert Zeros(3) == "000";
    assert FormatFriendlyId("T", 7, 4) == "T0007";
  }
}
