/** NIP-OA owner attestation: the conditions grammar, the signing preimage and the auth tag. */
module NipOa {
  import opened Wrappers
  import opened Text

  // ---------------------------------------------------------------- the grammar, as data

  datatype Clause = Kind(n: nat) | CreatedBefore(n: nat) | CreatedAfter(n: nat)

  const MAX_KIND: nat := 65535
  const UINT64: nat := 0x1_0000_0000_0000_0000

  predicate InRange(c: Clause) {
    match c
    case Kind(n) => n <= MAX_KIND
    case CreatedBefore(n) => n < UINT64
    case CreatedAfter(n) => n < UINT64
  }

  ghost predicate AllInRange(cs: seq<Clause>) {
    forall i | 0 <= i < |cs| :: InRange(cs[i])
  }

  function PrintClause(c: Clause): string {
    match c
    case Kind(n) => "kind=" + Decimal(n)
    case CreatedBefore(n) => "created_at<" + Decimal(n)
    case CreatedAfter(n) => "created_at>" + Decimal(n)
  }

  function PrintClauses(cs: seq<Clause>): (parts: seq<string>)
    ensures |parts| == |cs|
    ensures forall i | 0 <= i < |cs| :: parts[i] == PrintClause(cs[i])
  {
    if cs == [] then [] else [PrintClause(cs[0])] + PrintClauses(cs[1..])
  }

  /** The conditions string of a clause list; the empty list is the empty string. */
  function Print(cs: seq<Clause>): string {
    Join(PrintClauses(cs), '&')
  }

  // ---------------------------------------------------------------- the validator

  datatype ConditionError =
    | Whitespace
    | LeadingSeparator
    | TrailingSeparator
    | DoubledSeparator
    | Unrecognised(clause: string)
    | NonCanonical(clause: string)
    | KindOutOfRange(clause: string)
    | TimestampOutOfRange(clause: string)

  predicate IsConditionSpace(c: char) {
    c in {' ', '\t', '\n', '\r', '\U{0B}', '\U{0C}'}
  }

  predicate HasSpace(s: string) {
    exists i | 0 <= i < |s| :: IsConditionSpace(s[i])
  }

  predicate HasDoubled(s: string) {
    exists i | 0 <= i < |s| - 1 :: s[i] == '&' && s[i + 1] == '&'
  }

  /** One alternative of the clause pattern: a fixed prefix and one or more ASCII digits. Gives
      the capture group, empty when the alternative does not match. */
  function Capture(clause: string, prefix: string): string {
    if prefix <= clause && |prefix| < |clause| && AllDigits(clause[|prefix|..]) then clause[|prefix|..] else ""
  }

  /** strconv.ParseUint(s, 10, 64) on ASCII digits. */
  function ParseUint64(s: string): Option<nat>
    requires AllDigits(s)
  {
    if DecimalValue(s) < UINT64 then Some(DecimalValue(s)) else None
  }

  function ValidateClause(clause: string): Result<(), ConditionError> {
    var kindDecimal := Capture(clause, "kind=");
    var beforeDecimal := Capture(clause, "created_at<");
    var afterDecimal := Capture(clause, "created_at>");
    if kindDecimal == "" && beforeDecimal == "" && afterDecimal == "" then Err(Unrecognised(clause))
    else
      var decimal := if kindDecimal != "" then kindDecimal
                     else if beforeDecimal != "" then beforeDecimal else afterDecimal;
      if !IsCanonicalDecimal(decimal) then Err(NonCanonical(clause))
      else if kindDecimal != "" then
        (match ParseUint64(kindDecimal)
         case Some(v) => if v > MAX_KIND then Err(KindOutOfRange(clause)) else Ok(())
         case None => Err(KindOutOfRange(clause)))
      else if ParseUint64(decimal).None? then Err(TimestampOutOfRange(clause))
      else Ok(())
  }

  function ValidateAll(clauses: seq<string>): Result<(), ConditionError>
    decreases |clauses|
  {
    if clauses == [] then Ok(())
    else if ValidateClause(clauses[0]).Err? then ValidateClause(clauses[0])
    else ValidateAll(clauses[1..])
  }

  function ValidateConditions(s: string): Result<(), ConditionError> {
    if s == "" then Ok(())
    else if HasSpace(s) then Err(Whitespace)
    else if s[0] == '&' then Err(LeadingSeparator)
    else if s[|s| - 1] == '&' then Err(TrailingSeparator)
    else if HasDoubled(s) then Err(DoubledSeparator)
    else ValidateAll(Split(s, '&'))
  }

  // ---------------------------------------------------------------- a parser, as the partner

  function ParseClause(clause: string): Clause {
    if Capture(clause, "kind=") != "" then Kind(DecimalValue(Capture(clause, "kind=")))
    else if Capture(clause, "created_at<") != "" then CreatedBefore(DecimalValue(Capture(clause, "created_at<")))
    else CreatedAfter(DecimalValue(Capture(clause, "created_at>")))
  }

  function ParseClauses(parts: seq<string>): (cs: seq<Clause>)
    ensures |cs| == |parts|
    ensures forall i | 0 <= i < |cs| :: cs[i] == ParseClause(parts[i])
  {
    if parts == [] then [] else [ParseClause(parts[0])] + ParseClauses(parts[1..])
  }

  function Parse(s: string): seq<Clause> {
    if s == "" then [] else ParseClauses(Split(s, '&'))
  }

  // ---------------------------------------------------------------- one clause

  lemma CaptureOfPrinted(prefix: string, digits: string)
    requires digits != "" && AllDigits(digits)
    ensures Capture(prefix + digits, prefix) == digits
  {
    assert (prefix + digits)[|prefix|..] == digits;
  }

  lemma CaptureElsewhere(prefix: string, digits: string, other: string, i: nat)
    requires i < |prefix| && i < |other| && prefix[i] != other[i]
    ensures Capture(prefix + digits, other) == ""
  {
    assert (prefix + digits)[i] == prefix[i];
  }

  lemma CaptureSplits(clause: string, prefix: string)
    requires Capture(clause, prefix) != ""
    ensures clause == prefix + Capture(clause, prefix) && AllDigits(Capture(clause, prefix))
  {
    assert clause[..|prefix|] == prefix;
  }

  /** A printed clause in range is accepted and parses back to itself. */
  lemma PrintedClauseAccepted(c: Clause)
    requires InRange(c)
    ensures ValidateClause(PrintClause(c)) == Ok(())
    ensures ParseClause(PrintClause(c)) == c
  {
    DecimalIsCanonical(c.n);
    var d := Decimal(c.n);
    match c
    case Kind(_) =>
      CaptureOfPrinted("kind=", d);
    case CreatedBefore(_) =>
      CaptureOfPrinted("created_at<", d);
      CaptureElsewhere("created_at<", d, "kind=", 0);
    case CreatedAfter(_) =>
      CaptureOfPrinted("created_at>", d);
      CaptureElsewhere("created_at>", d, "kind=", 0);
      CaptureElsewhere("created_at>", d, "created_at<", 10);
  }

  /** An accepted clause prints back from its parse. */
  lemma AcceptedClausePrints(clause: string)
    requires ValidateClause(clause).Ok?
    ensures InRange(ParseClause(clause)) && PrintClause(ParseClause(clause)) == clause
  {
    if Capture(clause, "kind=") != "" {
      CaptureSplits(clause, "kind=");
      CanonicalIsDecimal(Capture(clause, "kind="));
    } else if Capture(clause, "created_at<") != "" {
      CaptureSplits(clause, "created_at<");
      CanonicalIsDecimal(Capture(clause, "created_at<"));
    } else {
      CaptureSplits(clause, "created_at>");
      CanonicalIsDecimal(Capture(clause, "created_at>"));
    }
  }

  // ---------------------------------------------------------------- whole strings

  predicate IsClauseChar(c: char) {
    'a' <= c <= 'z' || c in {'_', '=', '<', '>'} || IsDigit(c)
  }

  predicate CleanPart(s: string) {
    s != "" && forall i | 0 <= i < |s| :: IsClauseChar(s[i])
  }

  predicate IsConditionChar(c: char) {
    c == '&' || IsClauseChar(c)
  }

  lemma PrintedClauseClean(c: Clause)
    ensures CleanPart(PrintClause(c))
    ensures '&' !in PrintClause(c)
  {
    DecimalIsCanonical(c.n);
    var prefix := match c case Kind(_) => "kind="
                        case CreatedBefore(_) => "created_at<" case CreatedAfter(_) => "created_at>";
    assert forall i | 0 <= i < |prefix| :: IsClauseChar(prefix[i]);
    assert PrintClause(c) == prefix + Decimal(c.n);
  }

  /** Joining clean parts gives a string that passes the four textual checks. */
  lemma {:induction false} JoinedClean(parts: seq<string>)
    requires parts != [] && forall i | 0 <= i < |parts| :: CleanPart(parts[i])
    ensures var s := Join(parts, '&');
            && s != "" && IsClauseChar(s[0]) && IsClauseChar(s[|s| - 1])
            && !HasDoubled(s)
            && (forall i | 0 <= i < |s| :: IsConditionChar(s[i]))
    decreases |parts|
  {
    if |parts| > 1 {
      var rest := Join(parts[1..], '&');
      JoinedClean(parts[1..]);
      var s := Join(parts, '&');
      assert s == parts[0] + ['&'] + rest;
      var n := |parts[0]|;
      forall i | 0 <= i < |s| ensures IsConditionChar(s[i]) {
        assert s[i] == if i < n then parts[0][i] else if i == n then '&' else rest[i - n - 1];
      }
      forall i | 0 <= i < |s| - 1 ensures !(s[i] == '&' && s[i + 1] == '&') {
        if i > n {
          assert s[i] == rest[i - n - 1] && s[i + 1] == rest[i - n];
        } else if i < n {
          assert s[i] == parts[0][i];
        } else {
          assert s[i + 1] == rest[0];
        }
      }
      assert s[|s| - 1] == rest[|rest| - 1];
    }
  }

  lemma {:induction false} ValidateAllIff(clauses: seq<string>)
    ensures ValidateAll(clauses).Ok? <==> forall i | 0 <= i < |clauses| :: ValidateClause(clauses[i]).Ok?
    decreases |clauses|
  {
    if clauses != [] {
      ValidateAllIff(clauses[1..]);
      assert forall i | 0 <= i < |clauses| - 1 :: clauses[1..][i] == clauses[i + 1];
    }
  }

  lemma ConditionCharsAreNotSpace(s: string)
    requires forall i | 0 <= i < |s| :: IsConditionChar(s[i])
    ensures !HasSpace(s)
  {
  }

  lemma TextualChecksPass(s: string)
    requires s != "" && s[0] != '&' && s[|s| - 1] != '&' && !HasDoubled(s) && !HasSpace(s)
    ensures ValidateConditions(s) == ValidateAll(Split(s, '&'))
  {
  }

  lemma JoinedAccepted(parts: seq<string>)
    requires parts != [] && AllWithout(parts, '&') && ValidateAll(parts).Ok?
    requires forall i | 0 <= i < |parts| :: CleanPart(parts[i])
    ensures ValidateConditions(Join(parts, '&')).Ok?
  {
    var s := Join(parts, '&');
    JoinedClean(parts);
    ConditionCharsAreNotSpace(s);
    assert s[0] != '&' && s[|s| - 1] != '&';
    TextualChecksPass(s);
    SplitJoin(parts, '&');
    assert Split(s, '&') == parts;
  }

  /** Every printed list of clauses in range is accepted, and parses back to the list. */
  lemma PrintedIsAccepted(cs: seq<Clause>)
    requires AllInRange(cs)
    ensures ValidateConditions(Print(cs)).Ok?
    ensures Parse(Print(cs)) == cs
  {
    if cs != [] {
      var parts := PrintClauses(cs);
      forall i | 0 <= i < |cs|
        ensures CleanPart(parts[i]) && '&' !in parts[i]
        ensures ValidateClause(parts[i]).Ok? && ParseClause(parts[i]) == cs[i]
      {
        PrintedClauseClean(cs[i]);
        PrintedClauseAccepted(cs[i]);
      }
      ValidateAllIff(parts);
      JoinedAccepted(parts);
      JoinedClean(parts);
      SplitJoin(parts, '&');
    }
  }

  /** Every accepted string is the print of its parse, and its clauses are in range. */
  lemma AcceptedIsPrinted(s: string)
    requires ValidateConditions(s).Ok?
    ensures AllInRange(Parse(s)) && Print(Parse(s)) == s
  {
    if s != "" {
      var parts := Split(s, '&');
      ValidateAllIff(parts);
      JoinSplit(s, '&');
      forall i | 0 <= i < |parts|
        ensures InRange(ParseClause(parts[i])) && PrintClause(ParseClause(parts[i])) == parts[i]
      {
        AcceptedClausePrints(parts[i]);
      }
      assert PrintClauses(ParseClauses(parts)) == parts;
    }
  }

  /** The accepted language, in both directions. */
  lemma AcceptsExactlyTheGrammar(s: string)
    ensures ValidateConditions(s).Ok? <==> exists cs ::
              && s == Print(cs)
              && forall i | 0 <= i < |cs| ::
                   match cs[i]
                   case Kind(n) => n <= 65_535
                   case CreatedBefore(n) => n <= 18_446_744_073_709_551_615
                   case CreatedAfter(n) => n <= 18_446_744_073_709_551_615
  {
    if ValidateConditions(s).Ok? {
      AcceptedIsPrinted(s);
    }
    forall cs | AllInRange(cs) && s == Print(cs)
      ensures ValidateConditions(s).Ok?
    {
      PrintedIsAccepted(cs);
    }
  }

  /** What the grammar's texts look like. */
  lemma ClauseText(m: nat, n: nat)
    ensures Print([]) == ""
    ensures Print([Kind(n)]) == "kind=" + Decimal(n)
    ensures Print([CreatedBefore(m), CreatedAfter(n)]) == "created_at<" + Decimal(m) + "&" + "created_at>" + Decimal(n)
  {
    PrintHead([Kind(n)]);
    PrintHead([CreatedAfter(n)]);
    PrintHead([CreatedBefore(m), CreatedAfter(n)]);
    assert [CreatedBefore(m), CreatedAfter(n)][1..] == [CreatedAfter(n)];
  }

  lemma PrintHead(cs: seq<Clause>)
    requires cs != []
    ensures |cs| == 1 ==> Print(cs) == PrintClause(cs[0])
    ensures |cs| > 1 ==> Print(cs) == PrintClause(cs[0]) + "&" + Print(cs[1..])
  {
    assert PrintClauses(cs)[1..] == PrintClauses(cs[1..]);
  }

  /** A conditions string stands for one clause list only. */
  lemma ClauseListUnique(cs: seq<Clause>, ds: seq<Clause>)
    requires AllInRange(cs) && AllInRange(ds) && Print(cs) == Print(ds)
    ensures cs == ds
  {
    PrintedIsAccepted(cs);
    PrintedIsAccepted(ds);
  }

  /** An accepted string has only clause characters and '&' in it. */
  lemma AcceptedChars(s: string)
    requires ValidateConditions(s).Ok?
    ensures forall i | 0 <= i < |s| :: IsConditionChar(s[i])
  {
    if s != "" {
      AcceptedIsPrinted(s);
      var parts := PrintClauses(Parse(s));
      forall i | 0 <= i < |parts| ensures CleanPart(parts[i]) {
        PrintedClauseClean(Parse(s)[i]);
      }
      JoinedClean(parts);
    }
  }

  // ---------------------------------------------------------------- preimage

  const PREFIX: string := "nostr:agent-auth:"

  function Preimage(agentPubkey: string, conditions: string): string {
    PREFIX + agentPubkey + ":" + conditions
  }

  lemma ColonSplits(p: string, c: string, q: string, d: string)
    requires p + ":" + c == q + ":" + d
    requires (':' !in p && ':' !in q) || (':' !in c && ':' !in d)
    ensures p == q && c == d
  {
    var s := p + ":" + c;
    assert s[|p|] == ':' && s[|q|] == ':';
    assert forall k | 0 <= k < |p| :: s[k] == p[k];
    assert forall k | 0 <= k < |q| :: s[k] == q[k];
    assert forall k | |p| < k < |s| :: s[k] == c[k - |p| - 1];
    assert forall k | |q| < k < |s| :: s[k] == d[k - |q| - 1];
    assert |p| == |q|;
    assert s[..|p|] == p && s[..|q|] == q;
    assert s[|p| + 1..] == c && s[|q| + 1..] == d;
  }

  /** Two signing requests share a preimage only when they are the same request: when neither
      pubkey holds a ':', and also, whatever the pubkeys, when both conditions are accepted. */
  lemma PreimageInjective(p: string, c: string, q: string, d: string)
    requires Preimage(p, c) == Preimage(q, d)
    requires (':' !in p && ':' !in q) || (ValidateConditions(c).Ok? && ValidateConditions(d).Ok?)
    ensures p == q && c == d
  {
    var n := |PREFIX|;
    assert Preimage(p, c)[n..] == p + ":" + c;
    assert Preimage(q, d)[n..] == q + ":" + d;
    if ValidateConditions(c).Ok? && ValidateConditions(d).Ok? {
      AcceptedChars(c);
      AcceptedChars(d);
    }
    ColonSplits(p, c, q, d);
  }

  lemma ShorterPubkeyCollides(p: string, c: string, q: string, d: string)
    requires |p| < |q| && p + ":" + c == q + ":" + d
    ensures exists x :: q == p + ":" + x && c == x + ":" + d
  {
    var s := p + ":" + c;
    var x := q[|p| + 1..];
    assert s[..|q|] == q && s[|q|] == ':' && s[|q| + 1..] == d;
    assert s[..|p|] == p && s[|p|] == ':' && s[|p| + 1..] == c;
    assert q == q[..|p|] + [q[|p|]] + x && q[..|p|] == p && q[|p|] == ':';
    assert c == s[|p| + 1..|q|] + [s[|q|]] + s[|q| + 1..];
    assert s[|p| + 1..|q|] == x;
  }

  lemma SameLengthSplits(p: string, c: string, q: string, d: string)
    ensures |p| == |q| && p + ":" + c == q + ":" + d ==> p == q && c == d
  {
    assert (p + ":" + c)[..|p|] == p && (q + ":" + d)[..|q|] == q;
    assert (p + ":" + c)[|p| + 1..] == c && (q + ":" + d)[|q| + 1..] == d;
  }

  /** As a function of any two strings the preimage collides exactly when one request moves a piece
      of the pubkey that follows a ':' to the front of the conditions. */
  lemma PreimageCollisionIff(p: string, c: string, q: string, d: string)
    requires (p, c) != (q, d)
    ensures Preimage(p, c) == Preimage(q, d) <==>
              || (exists x :: q == p + ":" + x && c == x + ":" + d)
              || (exists x :: p == q + ":" + x && d == x + ":" + c)
  {
    var n := |PREFIX|;
    assert Preimage(p, c)[n..] == p + ":" + c && Preimage(q, d)[n..] == q + ":" + d;
    assert Preimage(p, c) == PREFIX + (p + ":" + c) && Preimage(q, d) == PREFIX + (q + ":" + d);
    SameLengthSplits(p, c, q, d);
    if Preimage(p, c) == Preimage(q, d) {
      if |p| < |q| {
        ShorterPubkeyCollides(p, c, q, d);
      } else if |q| < |p| {
        ShorterPubkeyCollides(q, d, p, c);
      }
    }
    if x :| q == p + ":" + x && c == x + ":" + d {
      assert p + ":" + c == q + ":" + d;
    }
    if x :| p == q + ":" + x && d == x + ":" + c {
      assert p + ":" + c == q + ":" + d;
    }
  }
}
