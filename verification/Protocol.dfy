/** The vocabulary both peers share: published accessory identities, roles and
    endpoint specs (`protocol.ts`, and its Python twin `bridge_protocol.py`). */
module Protocol {

  datatype Option<+T> = None | Some(value: T)

  lemma SomeNumber(s: set<int>)
    requires s != {}
    ensures exists n :: n in s
  {
    assert (forall n :: n !in s) ==> s == {};
  }

  lemma SomeText(s: set<string>)
    requires s != {}
    ensures exists t :: t in s
  {
    assert (forall t :: t !in s) ==> s == {};
  }

  // --- numbers as JavaScript reads them ------------------------------------

  const TWO_53: nat := 0x20_0000_0000_0000

  /** An integer of at least 2^53 rounded to 53 significant bits, ties to the even
      significand; `sticky` says that a non-zero bit was already shifted out. */
  function RoundToDouble(n: nat, sticky: bool): (r: nat)
    requires n >= TWO_53
    ensures r >= TWO_53
  {
    if n >= 2 * TWO_53 then 2 * RoundToDouble(n / 2, sticky || n % 2 == 1)
    else
      var q := n / 2;
      2 * (if n % 2 == 1 && (sticky || q % 2 == 1) then q + 1 else q)
  }

  /** `Number(digits)` in JavaScript. */
  function NumberOf(n: nat): nat {
    if n < TWO_53 then n else RoundToDouble(n, false)
  }

  /** Python's `int(digits)`. */
  function IntOf(n: nat): nat { n }

  /** What the identity code relies on about a peer's reading of digit strings. */
  ghost predicate ReadsSafely(number: nat -> nat) {
    && (forall n: nat :: n < TWO_53 ==> number(n) == n)
    && (forall n: nat :: n >= TWO_53 ==> number(n) >= TWO_53)
  }

  lemma BothPeersReadSafely()
    ensures ReadsSafely(NumberOf) && ReadsSafely(IntOf)
  {
  }

  // --- decimal printing and reading ----------------------------------------

  predicate IsDigit(c: char) { '0' <= c <= '9' }

  predicate AllDigits(s: string) { forall i :: 0 <= i < |s| ==> IsDigit(s[i]) }

  function DigitChar(d: nat): (c: char)
    requires d < 10
    ensures IsDigit(c)
  {
    '0' + d as char
  }

  function DigitValue(c: char): (d: nat)
    requires IsDigit(c)
    ensures d < 10
  {
    c as int - '0' as int
  }

  function PrintNat(n: nat): (s: string)
    ensures |s| >= 1 && AllDigits(s)
  {
    if n < 10 then [DigitChar(n)] else PrintNat(n / 10) + [DigitChar(n % 10)]
  }

  function ReadNat(s: string): nat
    requires AllDigits(s)
  {
    if s == "" then 0 else 10 * ReadNat(s[..|s| - 1]) + DigitValue(s[|s| - 1])
  }

  lemma {:induction false} ReadPrint(n: nat)
    ensures ReadNat(PrintNat(n)) == n
  {
    if n < 10 {
      assert ReadNat("") == 0;
    } else {
      ReadPrint(n / 10);
      assert PrintNat(n)[..|PrintNat(n)| - 1] == PrintNat(n / 10);
    }
  }

  function PrintInt(i: int): (s: string)
    ensures |s| >= 1
  {
    if i < 0 then "-" + PrintNat(-i) else PrintNat(i)
  }

  // --- published identities ------------------------------------------------

  const PREFIX: string := "indigo-"
  const PUBLISHED_ID_MAX: nat := 32

  datatype PublishedId = PublishedId(device: int, generation: nat)

  /** Generation 1 is the bare form; every later one is `~N`. */
  function PublishedIdFor(device: int, generation: nat): string {
    PREFIX + PrintBody(device, generation)
  }

  function PrintBody(device: int, generation: nat): string {
    if generation == 1 then PrintInt(device) else PrintInt(device) + "~" + PrintNat(generation)
  }

  /** Index of the first `~` at or after `from`, or the length. */
  function TildeFrom(s: string, from: nat): (i: nat)
    requires from <= |s|
    ensures from <= i <= |s|
    ensures forall k :: from <= k < i ==> s[k] != '~'
    ensures i < |s| ==> s[i] == '~'
    decreases |s| - from
  {
    if from == |s| || s[from] == '~' then from else TildeFrom(s, from + 1)
  }

  /** What the identity pattern captures: a sign and digits, then optionally a generation. */
  datatype Captures = Captures(negative: bool, size: nat, generation: Option<nat>)

  predicate IsNegative(signed: string) { signed != "" && signed[0] == '-' }

  function DigitsOf(signed: string): string { if IsNegative(signed) then signed[1..] else signed }

  /** Decimal digits, at least one. */
  predicate Numeral(s: string) { s != "" && AllDigits(s) }

  /** What follows the first `~`, if there is one. */
  function TailOf(body: string): Option<string> {
    var t := TildeFrom(body, 0);
    if t == |body| then None else Some(body[t + 1..])
  }

  function MatchParts(signed: string, tail: Option<string>): Option<Captures> {
    if !Numeral(DigitsOf(signed)) || (tail.Some? && !Numeral(tail.value)) then None
    else Some(Captures(IsNegative(signed), ReadNat(DigitsOf(signed)),
                       if tail.Some? then Some(ReadNat(tail.value)) else None))
  }

  function MatchBody(body: string): Option<Captures> { MatchParts(body[..TildeFrom(body, 0)], TailOf(body)) }

  function MatchIdentity(s: string): Option<Captures> {
    if PREFIX <= s then MatchBody(s[|PREFIX|..]) else None
  }

  /** How one peer reads the captured digits. */
  function Interpret(c: Captures, number: nat -> nat): Option<PublishedId> {
    var size := number(c.size);
    if size >= TWO_53 then None else
      var device: int := if c.negative then 0 - size else size;
      if c.generation.None? then Some(PublishedId(device, 1))
      else if number(c.generation.value) < 2 then None
      else Some(PublishedId(device, number(c.generation.value)))
  }

  /** The inverse of `PublishedIdFor`, given one peer's reading of digit strings. */
  function Parse(s: string, number: nat -> nat): Option<PublishedId> {
    if |s| > PUBLISHED_ID_MAX then None else
      match MatchIdentity(s)
      case None => None
      case Some(c) => Interpret(c, number)
  }

  /** The node's `parsePublishedId`. */
  function ParsePublishedId(s: string): Option<PublishedId> { Parse(s, NumberOf) }

  /** The plugin's `parse_published_id`. */
  function PluginParse(s: string): Option<PublishedId> { Parse(s, IntOf) }

  predicate LaterGeneration(before: Option<PublishedId>, after: Option<PublishedId>) {
    before.Some? && after.Some? &&
    before.value.device == after.value.device && after.value.generation > before.value.generation
  }

  /** `newer` is a later generation of the same identity. */
  predicate Supersedes(older: string, newer: string) {
    LaterGeneration(ParsePublishedId(older), ParsePublishedId(newer))
  }

  /** The plugin's `next_generation`; `None` is its `ValueError`. */
  function NextGeneration(s: string): Option<string> {
    match PluginParse(s)
    case None => None
    case Some(p) => Some(PublishedIdFor(p.device, p.generation + 1))
  }

  lemma TildeUnique(s: string, t: nat)
    requires t <= |s| && (t < |s| ==> s[t] == '~')
    requires forall k :: 0 <= k < t ==> s[k] != '~'
    ensures TildeFrom(s, 0) == t
  {
  }

  function CapturesOf(device: int, generation: nat): Captures {
    Captures(device < 0, if device < 0 then -device else device, if generation == 1 then None else Some(generation))
  }

  // --- what identities are, as strings -------------------------------------

  function Signed(negative: bool, digits: string): string { if negative then "-" + digits else digits }

  function Spelling(negative: bool, digits: string, tail: Option<string>): string {
    Signed(negative, digits) + if tail.Some? then "~" + tail.value else ""
  }

  ghost predicate SpellsBody(body: string, negative: bool, digits: string, tail: Option<string>) {
    Numeral(digits) && (tail.Some? ==> Numeral(tail.value)) && body == Spelling(negative, digits, tail)
  }

  /** `s` is the prefix, perhaps a minus sign, digits, and perhaps a tilde and more digits. */
  ghost predicate Spells(s: string, negative: bool, digits: string, tail: Option<string>) {
    Numeral(digits) && (tail.Some? ==> Numeral(tail.value)) && s == PREFIX + Spelling(negative, digits, tail)
  }

  lemma SignedDigits(negative: bool, digits: string)
    requires Numeral(digits)
    ensures var signed := Signed(negative, digits);
            && signed != "" && (IsNegative(signed) <==> negative) && DigitsOf(signed) == digits
            && forall k :: 0 <= k < |signed| ==> signed[k] != '~'
  {
    assert IsDigit(digits[0]);
    assert ("-" + digits)[1..] == digits;
  }

  lemma SplitsThere(signed: string, tail: Option<string>, body: string)
    requires forall k :: 0 <= k < |signed| ==> signed[k] != '~'
    requires body == signed + if tail.Some? then "~" + tail.value else ""
    ensures body[..TildeFrom(body, 0)] == signed && TailOf(body) == tail
  {
    assert forall k :: 0 <= k < |signed| ==> body[k] == signed[k];
    TildeUnique(body, |signed|);
    assert tail.Some? ==> body[|signed| + 1..] == tail.value;
  }

  /** The numbers such a string spells. */
  function CapturesFrom(negative: bool, digits: string, tail: Option<string>): Captures
    requires Numeral(digits) && (tail.Some? ==> Numeral(tail.value))
  {
    Captures(negative, ReadNat(digits), if tail.Some? then Some(ReadNat(tail.value)) else None)
  }

  lemma AfterPrefix(s: string, body: string)
    requires s == PREFIX + body
    ensures PREFIX <= s && s[|PREFIX|..] == body
  {
  }

  /** Such a string matches, and is read as what it spells. */
  lemma SpelledMatches(s: string, negative: bool, digits: string, tail: Option<string>)
    requires Spells(s, negative, digits, tail)
    ensures MatchIdentity(s) == Some(CapturesFrom(negative, digits, tail))
  {
    var signed, body := Signed(negative, digits), Spelling(negative, digits, tail);
    AfterPrefix(s, body);
    SignedDigits(negative, digits);
    SplitsThere(signed, tail, body);
  }

  lemma MatchedBodySpells(body: string)
    requires MatchBody(body).Some?
    ensures exists negative, digits, tail :: SpellsBody(body, negative, digits, tail)
  {
    var t := TildeFrom(body, 0);
    var signed := body[..t];
    assert signed == Signed(IsNegative(signed), DigitsOf(signed));
    assert SpellsBody(body, IsNegative(signed), DigitsOf(signed), TailOf(body));
  }

  /** And no other string does. */
  lemma MatchedIsSpelled(s: string)
    requires MatchIdentity(s).Some?
    ensures exists negative, digits, tail :: Spells(s, negative, digits, tail)
  {
    var body := s[|PREFIX|..];
    assert s == PREFIX + body;
    MatchedBodySpells(body);
    var negative, digits, tail :| SpellsBody(body, negative, digits, tail);
    assert Spells(s, negative, digits, tail);
  }

  lemma InterpretsCaptures(c: Captures, number: nat -> nat)
    ensures Interpret(c, number) ==
            if number(c.size) < TWO_53 && (c.generation.Some? ==> number(c.generation.value) >= 2)
            then Some(PublishedId(if c.negative then 0 - number(c.size) else number(c.size),
                                  if c.generation.Some? then number(c.generation.value) else 1)) else None
  {
  }

  /** What a peer makes of such a string: an identity, if it is at most 32 characters long, the
      device is a safe integer and the generation, if spelled, is 2 or later. */
  lemma ParseSpelled(s: string, negative: bool, digits: string, tail: Option<string>, number: nat -> nat)
    requires Spells(s, negative, digits, tail)
    ensures var c := CapturesFrom(negative, digits, tail);
            Parse(s, number) ==
            if |s| <= 32 && number(c.size) < TWO_53 && (c.generation.Some? ==> number(c.generation.value) >= 2)
            then Some(PublishedId(if negative then 0 - number(c.size) else number(c.size),
                                  if c.generation.Some? then number(c.generation.value) else 1)) else None
  {
    var c := CapturesFrom(negative, digits, tail);
    SpelledMatches(s, negative, digits, tail);
    ParseMatched(s, c, number);
    InterpretsCaptures(c, number);
  }

  /** Any other it refuses. */
  lemma ParsedIsSpelled(s: string, number: nat -> nat)
    requires Parse(s, number).Some?
    ensures exists negative, digits, tail :: Spells(s, negative, digits, tail)
  {
    MatchedIsSpelled(s);
  }

  // --- printing and reading back -------------------------------------------

  lemma PrintedSpells(device: int, generation: nat)
    ensures Spells(PublishedIdFor(device, generation), device < 0, PrintNat(if device < 0 then -device else device),
                   if generation == 1 then None else Some(PrintNat(generation)))
  {
    var digits := PrintNat(if device < 0 then -device else device);
    var tail := if generation == 1 then None else Some(PrintNat(generation));
    assert PrintInt(device) == Signed(device < 0, digits);
    assert PrintBody(device, generation) == Spelling(device < 0, digits, tail);
  }

  /** Matching a printed identity recovers exactly the two printed numbers. */
  lemma MatchPrinted(device: int, generation: nat)
    ensures MatchIdentity(PublishedIdFor(device, generation)) == Some(CapturesOf(device, generation))
  {
    var size := if device < 0 then -device else device;
    PrintedSpells(device, generation);
    SpelledMatches(PublishedIdFor(device, generation), device < 0, PrintNat(size),
                   if generation == 1 then None else Some(PrintNat(generation)));
    ReadPrint(size);
    ReadPrint(generation);
  }

  lemma ParseMatched(s: string, c: Captures, number: nat -> nat)
    requires MatchIdentity(s) == Some(c)
    ensures Parse(s, number) == if |s| > PUBLISHED_ID_MAX then None else Interpret(c, number)
  {
  }

  lemma ParsePublished(device: int, generation: nat, number: nat -> nat)
    requires ReadsSafely(number)
    ensures |PublishedIdFor(device, generation)| > PUBLISHED_ID_MAX ==>
              Parse(PublishedIdFor(device, generation), number).None?
    ensures |PublishedIdFor(device, generation)| <= PUBLISHED_ID_MAX ==>
              Parse(PublishedIdFor(device, generation), number) == Interpret(CapturesOf(device, generation), number)
  {
    MatchPrinted(device, generation);
    ParseMatched(PublishedIdFor(device, generation), CapturesOf(device, generation), number);
  }

  /** What the captures of a printed identity mean to a peer. */
  lemma InterpretsPrinted(device: int, generation: nat, number: nat -> nat)
    requires ReadsSafely(number)
    ensures Interpret(CapturesOf(device, generation), number) == Some(PublishedId(device, generation))
       <==> 0 - TWO_53 < device < TWO_53 && generation >= 1 && number(generation) == generation
  {
    assert number(1) == 1;
  }

  /** Round trip, exactly, for either peer: what is read back from a printed identity is
      that identity iff it fits the length cap, the device is a safe integer, and the
      generation is a lawful one the peer's numbers hold. */
  lemma ParsePrinted(device: int, generation: nat, number: nat -> nat)
    requires ReadsSafely(number)
    ensures Parse(PublishedIdFor(device, generation), number) == Some(PublishedId(device, generation))
       <==> |PublishedIdFor(device, generation)| <= PUBLISHED_ID_MAX
            && 0 - TWO_53 < device < TWO_53
            && generation >= 1 && number(generation) == generation
  {
    ParsePublished(device, generation, number);
    InterpretsPrinted(device, generation, number);
  }

  /** The node's own round trip. */
  lemma NodeParsePrinted(device: int, generation: nat)
    requires |PublishedIdFor(device, generation)| <= PUBLISHED_ID_MAX
    requires 0 - TWO_53 < device < TWO_53 && 1 <= generation < TWO_53
    ensures ParsePublishedId(PublishedIdFor(device, generation)) == Some(PublishedId(device, generation))
  {
    BothPeersReadSafely();
    ParsePrinted(device, generation, NumberOf);
  }

  /** Distinct (device, generation) pairs never share a printed identity. */
  lemma PrintInjective(d1: int, g1: nat, d2: int, g2: nat)
    requires PublishedIdFor(d1, g1) == PublishedIdFor(d2, g2)
    ensures d1 == d2 && g1 == g2
  {
    MatchPrinted(d1, g1);
    MatchPrinted(d2, g2);
  }

  lemma SupersedesIsStrictOrder(a: string, b: string, c: string)
    ensures !Supersedes(a, a)
    ensures Supersedes(a, b) ==> !Supersedes(b, a)
    ensures Supersedes(a, b) && Supersedes(b, c) ==> Supersedes(a, c)
  {
  }

  /** Of two printed identities one supersedes the other exactly if it is a later generation of the
      same device. */
  lemma SupersedesPrinted(d1: int, g1: nat, d2: int, g2: nat)
    requires |PublishedIdFor(d1, g1)| <= PUBLISHED_ID_MAX && |PublishedIdFor(d2, g2)| <= PUBLISHED_ID_MAX
    requires 0 - TWO_53 < d1 < TWO_53 && 1 <= g1 < TWO_53 && 0 - TWO_53 < d2 < TWO_53 && 1 <= g2 < TWO_53
    ensures Supersedes(PublishedIdFor(d1, g1), PublishedIdFor(d2, g2)) <==> d1 == d2 && g1 < g2
  {
    NodeParsePrinted(d1, g1);
    NodeParsePrinted(d2, g2);
  }

  /** The two peers accept the same strings and read the same device from each; they also
      read the same generation while it fits a double. */
  lemma PeersAgree(s: string)
    ensures ParsePublishedId(s).Some? <==> PluginParse(s).Some?
    ensures ParsePublishedId(s).Some? ==> ParsePublishedId(s).value.device == PluginParse(s).value.device
    ensures PluginParse(s).Some? && PluginParse(s).value.generation < TWO_53 ==> ParsePublishedId(s) == PluginParse(s)
  {
    BothPeersReadSafely();
    ReadsAlike(s, NumberOf, IntOf);
  }

  lemma ReadsAlike(s: string, n1: nat -> nat, n2: nat -> nat)
    requires ReadsSafely(n1) && ReadsSafely(n2)
    ensures Parse(s, n1).Some? <==> Parse(s, n2).Some?
    ensures Parse(s, n1).Some? ==> Parse(s, n1).value.device == Parse(s, n2).value.device
    ensures Parse(s, n2).Some? && Parse(s, n2).value.generation < TWO_53 ==> Parse(s, n1) == Parse(s, n2)
    // the generation read is the peer's number for one common value
    ensures Parse(s, n1).Some? ==> exists g: nat ::
              g >= 1 && Parse(s, n1).value.generation == n1(g) && Parse(s, n2).value.generation == n2(g)
  {
    var m := MatchIdentity(s);
    if m.Some? && Parse(s, n1).Some? {
      var g := if m.value.generation.None? then 1 else m.value.generation.value;
      assert Parse(s, n1).value.generation == n1(g) && Parse(s, n2).value.generation == n2(g);
    }
  }

  lemma PluginRead(s: string, number: nat -> nat)
    requires ReadsSafely(number) && PluginParse(s).Some?
    ensures PluginParse(s).value.generation >= 1
    ensures 0 - TWO_53 < PluginParse(s).value.device < TWO_53
    ensures Parse(s, number) == Some(PublishedId(PluginParse(s).value.device, number(PluginParse(s).value.generation)))
  {
    BothPeersReadSafely();
    ReadsAlike(s, number, IntOf);
  }

  lemma BumpedRead(p: PublishedId, next: string, number: nat -> nat)
    requires ReadsSafely(number) && p.generation >= 1 && 0 - TWO_53 < p.device < TWO_53
    requires next == PublishedIdFor(p.device, p.generation + 1)
    ensures Parse(next, number) == if |next| > PUBLISHED_ID_MAX then None
                                   else Some(PublishedId(p.device, number(p.generation + 1)))
  {
    ParsePublished(p.device, p.generation + 1, number);
  }

  lemma BumpIsLater(p: PublishedId, fits: bool, number: nat -> nat)
    requires ReadsSafely(number)
    ensures LaterGeneration(Some(PublishedId(p.device, number(p.generation))),
                            if fits then Some(PublishedId(p.device, number(p.generation + 1))) else None)
       <==> fits && number(p.generation + 1) > number(p.generation)
    ensures p.generation < TWO_53 - 1 ==> number(p.generation + 1) > number(p.generation)
  {
  }

  lemma NextIsPrinted(s: string, next: string, p: PublishedId)
    requires PluginParse(s) == Some(p) && NextGeneration(s) == Some(next)
    ensures next == PublishedIdFor(p.device, p.generation + 1)
  {
  }

  /** What the node makes of an identity and of its bump. */
  lemma BumpOnNode(s: string, next: string, p: PublishedId)
    requires PluginParse(s) == Some(p) && next == PublishedIdFor(p.device, p.generation + 1)
    ensures ParsePublishedId(s) == Some(PublishedId(p.device, NumberOf(p.generation)))
    ensures ParsePublishedId(next) == if |next| > PUBLISHED_ID_MAX then None
                                      else Some(PublishedId(p.device, NumberOf(p.generation + 1)))
  {
    BothPeersReadSafely();
    PluginRead(s, NumberOf);
    BumpedRead(p, next, NumberOf);
  }

  /** A generation bump is recognised by the node exactly when the bumped identity still
      fits the cap and the two generations read as different numbers on the node. */
  lemma NextGenerationSupersedes(s: string, next: string, p: PublishedId)
    requires PluginParse(s) == Some(p) && NextGeneration(s) == Some(next)
    ensures Supersedes(s, next) <==> |next| <= PUBLISHED_ID_MAX && NumberOf(p.generation + 1) > NumberOf(p.generation)
  {
    NextIsPrinted(s, next, p);
    BumpOnNode(s, next, p);
    BothPeersReadSafely();
    BumpIsLater(p, |next| <= PUBLISHED_ID_MAX, NumberOf);
  }

  /** Below 2^53 the cap alone decides. */
  lemma NextGenerationInRange(s: string, next: string, p: PublishedId)
    requires PluginParse(s) == Some(p) && NextGeneration(s) == Some(next) && p.generation < TWO_53 - 1
    ensures Supersedes(s, next) <==> |next| <= PUBLISHED_ID_MAX
  {
    NextGenerationSupersedes(s, next, p);
  }

  function PowerOfTen(k: nat): (r: nat)
    ensures r >= 1
  {
    if k == 0 then 1 else 10 * PowerOfTen(k - 1)
  }

  lemma {:induction false} DigitCount(n: nat, k: nat)
    requires k >= 1 && n < PowerOfTen(k)
    ensures |PrintNat(n)| <= k
  {
    if n >= 10 {
      assert PowerOfTen(0) == 1;
      DigitCount(n / 10, k - 1);
    }
  }

  lemma SeventeenDigitsFit(g: nat)
    requires g < 10_0000_0000_0000_0000
    ensures |PublishedIdFor(1, g)| <= PUBLISHED_ID_MAX
  {
    assert PowerOfTen(4) == 1_0000;
    assert PowerOfTen(8) == 1_0000_0000;
    assert PowerOfTen(12) == 1_0000_0000_0000;
    assert PowerOfTen(16) == 1_0000_0000_0000_0000;
    DigitCount(g, 17);
    DigitCount(1, 1);
  }

  lemma BothRead(g: nat)
    requires 2 <= g < 10_0000_0000_0000_0000
    ensures PluginParse(PublishedIdFor(1, g)) == Some(PublishedId(1, g))
    ensures ParsePublishedId(PublishedIdFor(1, g)) == Some(PublishedId(1, NumberOf(g)))
  {
    SeventeenDigitsFit(g);
    BothPeersReadSafely();
    ParsePublished(1, g, IntOf);
    ParsePublished(1, g, NumberOf);
  }

  /** Halfway to the next double, a tie goes back to the even one. */
  lemma SameDouble(g: nat)
    requires TWO_53 <= g < 2 * TWO_53 && g % 4 == 0
    ensures NumberOf(g + 1) == NumberOf(g) == g
  {
    assert (g + 1) / 2 == g / 2 && (g / 2) % 2 == 0;
  }

  lemma UnseenBump(s: string, next: string, g: nat)
    requires PluginParse(s) == Some(PublishedId(1, g)) && next == PublishedIdFor(1, g + 1)
    requires ParsePublishedId(next) == ParsePublishedId(s)
    ensures NextGeneration(s) == Some(next) && !Supersedes(s, next)
  {
  }

  /** Past 2^53 the node no longer sees every bump. These identities are lawful to both peers and
      bump to ones that fit the cap and that the node accepts, but that it reads as the same
      generation, so that they supersede nothing: a quarter of all generations up to 2^54. */
  lemma BumpPastTwo53IsInvisible(g: nat)
    requires TWO_53 <= g < 2 * TWO_53 && g % 4 == 0
    ensures var s := PublishedIdFor(1, g);
            var next := NextGeneration(s);
            && PluginParse(s) == Some(PublishedId(1, g)) && ParsePublishedId(s).Some?
            && next == Some(PublishedIdFor(1, g + 1)) && |next.value| <= PUBLISHED_ID_MAX
            && ParsePublishedId(next.value) == ParsePublishedId(s) && !Supersedes(s, next.value)
  {
    BothRead(g);
    BothRead(g + 1);
    SeventeenDigitsFit(g + 1);
    SameDouble(g);
    UnseenBump(PublishedIdFor(1, g), PublishedIdFor(1, g + 1), g);
  }

  ghost predicate BumpChain(ids: seq<string>) {
    forall k :: 0 <= k < |ids| - 1 ==> NextGeneration(ids[k]) == Some(ids[k + 1])
  }

  lemma BumpStep(older: string, newer: string)
    requires NextGeneration(older) == Some(newer) && PluginParse(newer).Some?
    ensures PluginParse(older).Some?
    ensures PluginParse(newer).value.device == PluginParse(older).value.device
    ensures PluginParse(newer).value.generation == PluginParse(older).value.generation + 1
  {
    BothPeersReadSafely();
    PluginRead(older, IntOf);
    BumpedRead(PluginParse(older).value, newer, IntOf);
  }

  lemma {:induction false} StepsAddUp(parsed: seq<PublishedId>, i: nat, j: nat)
    requires i <= j < |parsed|
    requires forall k :: 0 <= k < |parsed| - 1 ==>
               parsed[k + 1] == PublishedId(parsed[k].device, parsed[k].generation + 1)
    ensures parsed[j] == PublishedId(parsed[i].device, parsed[i].generation + (j - i))
  {
    if i < j { StepsAddUp(parsed, i, j - 1); }
  }

  /** A chain of bumps never repeats: however far apart, a later link is a later
      generation of the same device. */
  lemma BumpsNeverRepeat(ids: seq<string>, i: nat, j: nat)
    requires BumpChain(ids) && i < j < |ids|
    requires forall k :: 0 <= k < |ids| ==> PluginParse(ids[k]).Some?
    ensures PluginParse(ids[j]).value
            == PublishedId(PluginParse(ids[i]).value.device, PluginParse(ids[i]).value.generation + (j - i))
    ensures ids[i] != ids[j]
  {
    var parsed := seq(|ids|, k requires 0 <= k < |ids| => PluginParse(ids[k]).value);
    forall k | 0 <= k < |ids| - 1
      ensures parsed[k + 1] == PublishedId(parsed[k].device, parsed[k].generation + 1)
    {
      BumpStep(ids[k], ids[k + 1]);
    }
    StepsAddUp(parsed, i, j);
  }

  // --- roles and endpoint specs --------------------------------------------

  /** Every role of the v1 enum has a definition, so the enum is also the supported set. */
  const ROLES: set<string> := {
    "onOffPlugInUnit", "onOffLight", "dimmableLight", "colorTemperatureLight", "extendedColorLight",
    "windowCovering", "doorLock", "occupancySensor", "contactSensor", "waterLeakDetector",
    "waterFreezeDetector", "rainSensor", "smokeAlarm", "coAlarm", "temperatureSensor",
    "humiditySensor", "lightSensor", "pressureSensor", "flowSensor", "thermostat"
  }

  predicate Supported(role: string) { role in ROLES }

  lemma SupportedIsNamed(role: string)
    requires Supported(role)
    ensures role != ""
  {
  }

  /** A JSON value as far as any reader of frames or files tells them apart. */
  datatype Json = JNull | JBool(b: bool) | JNum(r: real) | JStr(s: string) | JStruct | JOther

  predicate IsInteger(v: Json) { v.JNum? && v.r == v.r.Floor as real }

  /** One desired accessory (`name` is the wire's label). Its states and options act on an endpoint only through
      writes that may fail, so they are not carried here. */
  datatype EndpointSpec = EndpointSpec(
    device: int, role: string, name: string, reachable: bool, battery: bool, publishedAs: string)

  predicate DistinctDevices(specs: seq<EndpointSpec>) {
    forall i, j :: 0 <= i < j < |specs| ==> specs[i].device != specs[j].device
  }

  predicate DistinctIds(specs: seq<EndpointSpec>) {
    forall i, j :: 0 <= i < j < |specs| ==> specs[i].publishedAs != specs[j].publishedAs
  }
}
