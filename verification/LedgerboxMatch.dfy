/**
 How well a credit fits an invoice (`lib/match.ts`). The evidence sentences are not modelled;
 the scores, the shortfall and the trading name are. Upper case is the ASCII one, and a ratio of cents
 is compared exactly.
 */
module LedgerboxMatch {
  import opened LedgerboxTypes
  import opened Lists
  import opened Options

  const FLOOR := 40
  const STRONG := 85
  const LIKELY := 60
  const AMBIGUOUS_GAP := 12

  function Upper(c: char): char {
    if 'a' <= c <= 'z' then (c as int - 32) as char else c
  }

  predicate IsWordChar(c: char) {
    'A' <= c <= 'Z' || '0' <= c <= '9'
  }

  function Squash(text: string): string {
    Filter(Map(text, Upper), IsWordChar)
  }

  predicate Contains(text: string, part: string) {
    part <= text || (text != [] && Contains(text[1..], part))
  }

  /** The upper-case words of `text`, given the word being read. */
  function Words(text: string, word: string): seq<string> {
    if text == [] then (if word == [] then [] else [word])
    else
      var c := Upper(text[0]);
      if IsWordChar(c) then Words(text[1..], word + [c])
      else (if word == [] then [] else [word]) + Words(text[1..], [])
  }

  function Tokens(text: string): seq<string> {
    Filter(Words(text, []), (w: string) => |w| >= 4)
  }

  predicate HasOneOf(text: string, words: seq<string>) {
    words != [] && (Contains(text, words[0]) || HasOneOf(text, words[1..]))
  }

  datatype Signal = Signal(score: nat, shortBy: Option<int>, alias: Option<string>)
  datatype Confidence = Strong | Likely | Weak

  /** `part / whole <= percent / 100`, for a whole of either sign. */
  predicate WithinPercent(part: int, whole: int, percent: int) {
    if whole > 0 then 100 * part <= percent * whole
    else whole < 0 && 100 * part >= percent * whole
  }

  function AmountSignal(owed: int, line: int): Option<Signal> {
    if line == owed then Some(Signal(60, None, None))
    else
      var short := owed - line;
      if short <= 5000 && WithinPercent(short, owed, 5) then Some(Signal(46, Some(short), None))
      else if WithinPercent(short, owed, 1) then Some(Signal(40, Some(short), None))
      else if WithinPercent(short, owed, 3) then Some(Signal(30, Some(short), None))
      else None
  }

  function NameSignal(clientName: string, memo: string, alias: Option<string>): Option<Signal> {
    var squashed := Squash(memo);
    if alias.Some? && alias.value != "" && Contains(squashed, Squash(alias.value)) then Some(Signal(25, None, alias))
    else if Contains(squashed, Squash(clientName)) then Some(Signal(25, None, None))
    else if HasOneOf(squashed, Tokens(clientName)) then Some(Signal(16, None, None))
    else None
  }

  function ReferenceSignal(number: string, memo: string): Option<Signal> {
    if Contains(Squash(memo), Squash(number)) then Some(Signal(30, None, None)) else None
  }

  /** `Math.round` of the days between, half a day counting up. */
  function DaysBetween(due: Instant, posted: Instant): int {
    (2 * (posted - due) + DAY_MS) / (2 * DAY_MS)
  }

  function DateSignal(due: Instant, posted: Instant): Option<Signal> {
    var days := DaysBetween(due, posted);
    var near := if days < 0 then -days else days;
    if near <= 7 then Some(Signal(14, None, None))
    else if near <= 21 then Some(Signal(8, None, None))
    else None
  }

  datatype ScoreInput = ScoreInput(
    number: string, amount: int, dueAt: Instant, clientName: string, balance: int, alias: Option<string>)

  datatype Candidate = Candidate(
    line: BankLine, score: nat, confidence: Confidence, shortBy: Option<int>, alias: Option<string>)

  function Signals(input: ScoreInput, line: BankLine): seq<Signal> {
    var target := if input.balance > 0 then input.balance else input.amount;
    Fired(AmountSignal(target, line.amount)) +
    Fired(NameSignal(input.clientName, line.memo, input.alias)) +
    Fired(ReferenceSignal(input.number, line.memo)) +
    Fired(DateSignal(input.dueAt, line.postedAt))
  }

  function Fired(s: Option<Signal>): seq<Signal> {
    if s.Some? then [s.value] else []
  }

  function FirstShort(signals: seq<Signal>): Option<int> {
    if signals == [] then None
    else if signals[0].shortBy.Some? then signals[0].shortBy else FirstShort(signals[1..])
  }

  function FirstAlias(signals: seq<Signal>): Option<string> {
    if signals == [] then None
    else if signals[0].alias.Some? then signals[0].alias else FirstAlias(signals[1..])
  }

  function TotalScore(signals: seq<Signal>): nat {
    if signals == [] then 0 else signals[0].score + TotalScore(signals[1..])
  }

  function Judge(line: BankLine, signals: seq<Signal>): Option<Candidate> {
    var score := TotalScore(signals);
    if score < FLOOR || |signals| < 2 then None
    else
      var confidence := if score >= STRONG then Strong else if score >= LIKELY then Likely else Weak;
      Some(Candidate(line, score, confidence, FirstShort(signals), FirstAlias(signals)))
  }

  /** Only a credit within what is owed fits, and only on signals that `Judge` accepts. */
  function ScoreCandidate(input: ScoreInput, line: BankLine): Option<Candidate> {
    var target := if input.balance > 0 then input.balance else input.amount;
    if line.direction != In || line.amount > target then None
    else Judge(line, Signals(input, line))
  }

  predicate IsContender(best: int, score: int) {
    best - score < AMBIGUOUS_GAP
  }

  // ----- what a score means -----

  lemma TotalScoreConcat(a: seq<Signal>, b: seq<Signal>)
    ensures TotalScore(a + b) == TotalScore(a) + TotalScore(b)
  {
    if a == [] {
      assert a + b == b;
    } else {
      assert (a + b)[1..] == a[1..] + b;
      TotalScoreConcat(a[1..], b);
    }
  }

  lemma FirstShortConcat(a: seq<Signal>, b: seq<Signal>)
    ensures FirstShort(a + b) == if FirstShort(a).Some? then FirstShort(a) else FirstShort(b)
  {
    if a == [] {
      assert a + b == b;
    } else {
      assert (a + b)[1..] == a[1..] + b;
      FirstShortConcat(a[1..], b);
    }
  }

  lemma FiredAlone(s: Option<Signal>)
    ensures TotalScore(Fired(s)) == if s.Some? then s.value.score else 0
    ensures FirstShort(Fired(s)) == if s.Some? then s.value.shortBy else None
  {
    if s.Some? {
      assert Fired(s)[1..] == [];
    }
  }

  /** Beside the amount's own, the signals add 69 at most, and no shortfall. */
  predicate AmountLeads(owed: int, cents: int, signals: seq<Signal>) {
    var amount := AmountSignal(owed, cents);
    && TotalScore(signals) <= (if amount.Some? then amount.value.score else 0) + 69
    && FirstShort(signals) == if amount.Some? then amount.value.shortBy else None
  }

  lemma FourFired(a: Option<Signal>, n: Option<Signal>, r: Option<Signal>, d: Option<Signal>)
    requires n.Some? ==> n.value.score <= 25 && n.value.shortBy.None?
    requires r.Some? ==> r.value.score <= 30 && r.value.shortBy.None?
    requires d.Some? ==> d.value.score <= 14 && d.value.shortBy.None?
    ensures var signals := Fired(a) + Fired(n) + Fired(r) + Fired(d);
            && TotalScore(signals) <= (if a.Some? then a.value.score else 0) + 69
            && FirstShort(signals) == if a.Some? then a.value.shortBy else None
  {
    FiredAlone(a);
    FiredAlone(n);
    FiredAlone(r);
    FiredAlone(d);
    TotalScoreConcat(Fired(a) + Fired(n) + Fired(r), Fired(d));
    TotalScoreConcat(Fired(a) + Fired(n), Fired(r));
    TotalScoreConcat(Fired(a), Fired(n));
    FirstShortConcat(Fired(a) + Fired(n) + Fired(r), Fired(d));
    FirstShortConcat(Fired(a) + Fired(n), Fired(r));
    FirstShortConcat(Fired(a), Fired(n));
  }

  lemma NameScores(clientName: string, memo: string, alias: Option<string>)
    ensures var n := NameSignal(clientName, memo, alias);
            n.Some? ==> n.value.score <= 25 && n.value.shortBy.None?
  {
  }

  lemma SignalsAdd(input: ScoreInput, line: BankLine)
    requires input.balance > 0
    ensures AmountLeads(input.balance, line.amount, Signals(input, line))
  {
    NameScores(input.clientName, line.memo, input.alias);
    FourFired(AmountSignal(input.balance, line.amount), NameSignal(input.clientName, line.memo, input.alias),
              ReferenceSignal(input.number, line.memo), DateSignal(input.dueAt, line.postedAt));
  }

  /** How far `amount` may fall short of `owed` and still look like it. */
  predicate CloseEnough(owed: int, amount: int) {
    var short := owed - amount;
    0 <= short && (100 * short <= 3 * owed || (short <= 5000 && 100 * short <= 5 * owed))
  }

  /** Close enough, with what is missing stated exactly, and not at all when nothing is. */
  predicate StatesShort(owed: int, amount: int, shortBy: Option<int>) {
    CloseEnough(owed, amount) && shortBy == if amount == owed then None else Some(owed - amount)
  }

  lemma AmountSignalFits(owed: int, amount: int)
    requires owed > 0 && amount <= owed && AmountSignal(owed, amount).Some?
    ensures CloseEnough(owed, amount)
    ensures AmountSignal(owed, amount).value.shortBy == if amount == owed then None else Some(owed - amount)
  {
  }

  lemma StrongFromSignals(owed: int, line: BankLine, signals: seq<Signal>, hit: Candidate)
    requires owed > 0 && line.amount <= owed
    requires Judge(line, signals) == Some(hit) && hit.confidence == Strong
    requires AmountLeads(owed, line.amount, signals)
    ensures StatesShort(owed, line.amount, hit.shortBy)
  {
    AmountSignalFits(owed, line.amount);
  }

  /** What the score was judged on. */
  lemma SignalsBehind(input: ScoreInput, line: BankLine, hit: Candidate) returns (signals: seq<Signal>)
    requires input.balance > 0 && ScoreCandidate(input, line) == Some(hit)
    ensures line.amount <= input.balance && Judge(line, signals) == Some(hit)
    ensures AmountLeads(input.balance, line.amount, signals)
  {
    SignalsAdd(input, line);
    signals := Signals(input, line);
  }

  /**
   A `strong` score cannot be reached without the amount: name, number and date together stop at 69.
   So a strong credit is within 3% of what is owed, or short by at most 5000 cents and 5%; and its
   stated shortfall is exactly what is missing, absent when nothing is.
   */
  lemma StrongMeansTheAmountFits(input: ScoreInput, line: BankLine, hit: Candidate)
    requires input.balance > 0
    requires ScoreCandidate(input, line) == Some(hit) && hit.confidence == Strong
    ensures StatesShort(input.balance, line.amount, hit.shortBy)
  {
    var signals := SignalsBehind(input, line, hit);
    StrongFromSignals(input.balance, line, signals, hit);
  }

  // ----- when a score is strong -----

  predicate SpelledAt(text: string, part: string, k: nat) {
    k + |part| <= |text| && text[k..k + |part|] == part
  }

  lemma SpelledInTail(text: string, part: string, k: nat)
    requires text != []
    ensures SpelledAt(text, part, k + 1) <==> SpelledAt(text[1..], part, k)
  {
    if k + |part| < |text| {
      assert text[1..][k..k + |part|] == text[k + 1..k + 1 + |part|];
    }
  }

  lemma {:induction false} ContainsExactly(text: string, part: string)
    ensures Contains(text, part) <==> exists k: nat :: SpelledAt(text, part, k)
  {
    assert part <= text <==> SpelledAt(text, part, 0);
    if text != [] {
      ContainsExactly(text[1..], part);
      if k: nat :| SpelledAt(text[1..], part, k) { SpelledInTail(text, part, k); }
      if k: nat :| SpelledAt(text, part, k) && k > 0 { SpelledInTail(text, part, k - 1); }
    }
  }

  lemma {:induction false} HasOneOfExactly(text: string, words: seq<string>)
    ensures HasOneOf(text, words) <==> exists w :: w in words && Contains(text, w)
  {
    if words != [] {
      HasOneOfExactly(text, words[1..]);
      assert words[0] in words && forall w :: w in words <==> w == words[0] || w in words[1..];
    }
  }

  /** `part`, squashed, is spelled somewhere in the squashed memo. */
  ghost predicate Quotes(memo: string, part: string) {
    exists k: nat :: SpelledAt(Squash(memo), Squash(part), k)
  }

  /** The memo spells the client's name, or the one their bank prints. */
  ghost predicate FullyNamed(input: ScoreInput, memo: string) {
    (input.alias.Some? && input.alias.value != "" && Quotes(memo, input.alias.value)) || Quotes(memo, input.clientName)
  }

  /** A longest stretch of letters and digits. */
  predicate IsRun(t: string, a: nat, b: nat) {
    && a < b <= |t| && (forall k :: a <= k < b ==> IsWordChar(t[k]))
    && (a == 0 || !IsWordChar(t[a - 1])) && (b == |t| || !IsWordChar(t[b]))
  }

  ghost predicate HasRun(t: string, w: string) {
    exists a: nat, b: nat :: IsRun(t, a, b) && t[a..b] == w
  }

  lemma TailReads(front: string, c: char, rest: string)
    ensures var t := front + [c] + rest;
            && |t| == |front| + 1 + |rest| && t[|front|] == c && t[|front| + 1..] == rest
            && forall k :: |front| < k < |t| ==> t[k] == rest[k - |front| - 1]
  {
  }

  /** Behind a character that is none, the runs are those of the rest. */
  lemma RunsBehind(front: string, c: char, rest: string, a: nat, b: nat)
    requires !IsWordChar(c) && a < b <= |rest|
    ensures IsRun(rest, a, b) <==> IsRun(front + [c] + rest, a + |front| + 1, b + |front| + 1)
    ensures rest[a..b] == (front + [c] + rest)[a + |front| + 1..b + |front| + 1]
  {
    var t, shift := front + [c] + rest, |front| + 1;
    TailReads(front, c, rest);
    RunShifts(t, rest, shift, a, b);
  }

  lemma RunShifts(t: string, rest: string, shift: nat, a: nat, b: nat)
    requires 0 < shift && |t| == shift + |rest| && (forall k :: shift <= k < |t| ==> t[k] == rest[k - shift])
    requires !IsWordChar(t[shift - 1]) && a < b <= |rest|
    ensures IsRun(rest, a, b) <==> IsRun(t, a + shift, b + shift)
    ensures rest[a..b] == t[a + shift..b + shift]
  {
    if IsRun(t, a + shift, b + shift) {
      forall k | a <= k < b ensures IsWordChar(rest[k]) { assert IsWordChar(t[k + shift]); }
    }
  }

  lemma RunInFront(word: string, c: char, rest: string, a: nat, b: nat)
    requires !IsWordChar(c) && (forall k :: 0 <= k < |word| ==> IsWordChar(word[k])) && a <= |word|
    ensures IsRun(word + [c] + rest, a, b) <==> a == 0 && b == |word| && word != []
  {
    var t := word + [c] + rest;
    assert t[|word|] == c && forall k :: 0 <= k < |word| ==> t[k] == word[k];
  }

  lemma RunsAreSplit(word: string, c: char, rest: string, w: string)
    requires !IsWordChar(c) && forall k :: 0 <= k < |word| ==> IsWordChar(word[k])
    ensures HasRun(word + [c] + rest, w) <==> (word != [] && w == word) || HasRun(rest, w)
  {
    var t := word + [c] + rest;
    RunInFront(word, c, rest, 0, |word|);
    assert t[0..|word|] == word;
    if HasRun(rest, w) {
      var a: nat, b: nat :| IsRun(rest, a, b) && rest[a..b] == w;
      RunsBehind(word, c, rest, a, b);
    }
    if HasRun(t, w) {
      var a: nat, b: nat :| IsRun(t, a, b) && t[a..b] == w;
      if a <= |word| {
        RunInFront(word, c, rest, a, b);
      } else {
        RunsBehind(word, c, rest, a - |word| - 1, b - |word| - 1);
      }
    }
  }

  lemma {:induction false} WordsExactly(text: string, word: string, w: string)
    requires forall k :: 0 <= k < |word| ==> IsWordChar(word[k])
    ensures w in Words(text, word) <==> HasRun(word + Map(text, Upper), w)
  {
    if text == [] {
      LastRun(word, w);
      assert word + Map(text, Upper) == word;
    } else {
      var c, rest := Upper(text[0]), Map(text[1..], Upper);
      MapFirst(text);
      assert word + Map(text, Upper) == word + [c] + rest && [] + rest == rest;
      if IsWordChar(c) {
        WordsExactly(text[1..], word + [c], w);
      } else {
        WordsExactly(text[1..], [], w);
        RunsAreSplit(word, c, rest, w);
      }
    }
  }

  lemma LastRun(word: string, w: string)
    requires forall k :: 0 <= k < |word| ==> IsWordChar(word[k])
    ensures HasRun(word, w) <==> word != [] && w == word
  {
    if word != [] { assert IsRun(word, 0, |word|) && word[0..|word|] == word; }
    if HasRun(word, w) {
      var a: nat, b: nat :| IsRun(word, a, b) && word[a..b] == w;
    }
  }

  lemma MapFirst(text: string)
    requires text != []
    ensures Map(text, Upper) == [Upper(text[0])] + Map(text[1..], Upper)
  {
    var m := Map(text, Upper);
    assert forall k :: 0 <= k < |text| ==> m[k] == Upper(text[k]);
  }

  /** The memo spells a word of the client's name, of four letters or digits at least. */
  ghost predicate PartlyNamed(input: ScoreInput, memo: string) {
    || FullyNamed(input, memo)
    || exists w, k: nat :: |w| >= 4 && HasRun(Map(input.clientName, Upper), w) && SpelledAt(Squash(memo), w, k)
  }

  lemma TokensExactly(name: string, w: string)
    ensures w in Tokens(name) <==> |w| >= 4 && HasRun(Map(name, Upper), w)
  {
    WordsExactly(name, [], w);
    assert [] + Map(name, Upper) == Map(name, Upper);
    FilterMember(Words(name, []), (x: string) => |x| >= 4, w);
  }

  /** Within seven days and a half of the due date, the half counting before it only. */
  predicate CloseInTime(due: Instant, posted: Instant) {
    -15 * DAY_MS <= 2 * (posted - due) < 15 * DAY_MS
  }

  function Points(s: Option<Signal>): nat {
    if s.Some? then s.value.score else 0
  }

  function Count(s: Option<Signal>): nat {
    if s.Some? then 1 else 0
  }

  lemma FourTotals(a: Option<Signal>, n: Option<Signal>, r: Option<Signal>, d: Option<Signal>)
    ensures TotalScore(Fired(a) + Fired(n) + Fired(r) + Fired(d)) == Points(a) + Points(n) + Points(r) + Points(d)
    ensures |Fired(a) + Fired(n) + Fired(r) + Fired(d)| == Count(a) + Count(n) + Count(r) + Count(d)
  {
    FiredAlone(a);
    FiredAlone(n);
    FiredAlone(r);
    FiredAlone(d);
    TotalScoreConcat(Fired(a) + Fired(n) + Fired(r), Fired(d));
    TotalScoreConcat(Fired(a) + Fired(n), Fired(r));
    TotalScoreConcat(Fired(a), Fired(n));
  }

  lemma NamePoints(input: ScoreInput, memo: string)
    ensures Count(NameSignal(input.clientName, memo, input.alias)) == 0 <==>
            Points(NameSignal(input.clientName, memo, input.alias)) == 0
    ensures Points(NameSignal(input.clientName, memo, input.alias)) ==
            if FullyNamed(input, memo) then 25 else if PartlyNamed(input, memo) then 16 else 0
  {
    var squashed := Squash(memo);
    ContainsExactly(squashed, Squash(input.clientName));
    if input.alias.Some? { ContainsExactly(squashed, Squash(input.alias.value)); }
    var words := Tokens(input.clientName);
    HasOneOfExactly(squashed, words);
    if w :| w in words && Contains(squashed, w) {
      TokensExactly(input.clientName, w);
      ContainsExactly(squashed, w);
    }
    if w, k: nat :| |w| >= 4 && HasRun(Map(input.clientName, Upper), w) && SpelledAt(squashed, w, k) {
      TokensExactly(input.clientName, w);
      ContainsExactly(squashed, w);
    }
  }

  /** Within three weeks of it, the half of a day counting as before. */
  predicate WithinWeeks(due: Instant, posted: Instant) {
    -43 * DAY_MS <= 2 * (posted - due) < 43 * DAY_MS
  }

  lemma NumberPoints(number: string, memo: string)
    ensures Points(ReferenceSignal(number, memo)) == if Quotes(memo, number) then 30 else 0
    ensures Count(ReferenceSignal(number, memo)) == 0 <==> Points(ReferenceSignal(number, memo)) == 0
  {
    ContainsExactly(Squash(memo), Squash(number));
  }

  lemma DatePoints(due: Instant, posted: Instant)
    ensures Count(DateSignal(due, posted)) == 0 <==> Points(DateSignal(due, posted)) == 0
    ensures Points(DateSignal(due, posted)) ==
            if CloseInTime(due, posted) then 14 else if WithinWeeks(due, posted) then 8 else 0
  {
  }

  lemma AmountPoints(owed: int, cents: int)
    requires 0 < owed && cents <= owed
    ensures Count(AmountSignal(owed, cents)) == 0 <==> Points(AmountSignal(owed, cents)) == 0
    ensures var short := owed - cents;
            Points(AmountSignal(owed, cents)) ==
            if short == 0 then 60
            else if short <= 5000 && 100 * short <= 5 * owed then 46
            else if 100 * short <= owed then 40
            else if 100 * short <= 3 * owed then 30 else 0
  {
  }

  /** The points of the four signs, one beside another, and how many of them there are. */
  lemma SignsAdd(input: ScoreInput, line: BankLine)
    requires input.balance > 0
    ensures var a, n := AmountSignal(input.balance, line.amount), NameSignal(input.clientName, line.memo, input.alias);
            var r, d := ReferenceSignal(input.number, line.memo), DateSignal(input.dueAt, line.postedAt);
            && TotalScore(Signals(input, line)) == Points(a) + Points(n) + Points(r) + Points(d)
            && |Signals(input, line)| == Count(a) + Count(n) + Count(r) + Count(d)
  {
    FourTotals(AmountSignal(input.balance, line.amount), NameSignal(input.clientName, line.memo, input.alias),
               ReferenceSignal(input.number, line.memo), DateSignal(input.dueAt, line.postedAt));
  }

  /**
   Which credits score strong, and so can hold a letter back: the exact amount with the number or the name quoted, or
   with a word of the name near the due date; short by a wire fee or by 1%, with the number quoted and one sign more
   (or a fee short, named and near the date); short by 3%, with the number and the name, or a word of it near the date.
   */
  lemma StrongExactly(input: ScoreInput, line: BankLine)
    requires input.balance > 0 && line.direction == In && line.amount <= input.balance
    ensures var hit, short := ScoreCandidate(input, line), input.balance - line.amount;
            var number, named := Quotes(line.memo, input.number), FullyNamed(input, line.memo);
            var word, near := PartlyNamed(input, line.memo), CloseInTime(input.dueAt, line.postedAt);
            hit.Some? && hit.value.confidence == Strong <==>
            || (short == 0 && (number || named || (word && near)))
            || (short <= 5000 && 100 * short <= 5 * input.balance && ((number && (word || near)) || (named && near)))
            || (100 * short <= input.balance && number && word)
            || (100 * short <= 3 * input.balance && number && (named || (word && near)))
  {
    SignsAdd(input, line);
    NamePoints(input, line.memo);
    NumberPoints(input.number, line.memo);
    DatePoints(input.dueAt, line.postedAt);
    AmountPoints(input.balance, line.amount);
  }

  /**
   Which credits are offered at all: the exact amount, or short by a wire fee or 1%, with any sign beside it; short by
   3%, with more than a date three weeks off; or the number quoted, with a word of the name or near the due date.
   */
  lemma OfferedExactly(input: ScoreInput, line: BankLine)
    requires input.balance > 0
    ensures var hit, short := ScoreCandidate(input, line), input.balance - line.amount;
            var number, word := Quotes(line.memo, input.number), PartlyNamed(input, line.memo);
            var near, weeks := CloseInTime(input.dueAt, line.postedAt), WithinWeeks(input.dueAt, line.postedAt);
            var fee, percent := short <= 5000 && 100 * short <= 5 * input.balance, 100 * short <= input.balance;
            hit.Some? <==>
            && line.direction == In && 0 <= short
            && (|| ((fee || percent) && (number || word || weeks))
                || (100 * short <= 3 * input.balance && (number || word || near))
                || (number && (word || near)))
    ensures ScoreCandidate(input, line).Some? ==>
              var hit := ScoreCandidate(input, line).value;
              && hit.line == line && hit.score >= 40
              && hit.confidence == if hit.score >= 85 then Strong else if hit.score >= 60 then Likely else Weak
  {
    if line.direction == In && line.amount <= input.balance {
      SignsAdd(input, line);
      NamePoints(input, line.memo);
      NumberPoints(input.number, line.memo);
      DatePoints(input.dueAt, line.postedAt);
      AmountPoints(input.balance, line.amount);
    }
  }
}
