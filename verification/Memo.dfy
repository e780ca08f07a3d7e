/** Deposit memos of the form `kind_id`, and the mint ids of withdrawals that are minted back. */
module Memo {
  import opened Wrappers
  import opened Collections
  import opened ValidatorList

  // ---- decimal numerals --------------------------------------------------------------------

  predicate IsDigit(c: char) { '0' <= c <= '9' }

  function DigitValue(c: char): nat
    requires IsDigit(c)
  {
    (c - '0') as int
  }

  function Digit(d: nat): char
    requires d < 10
  {
    '0' + d as char
  }

  function Decimal(n: nat): (s: string)
    ensures |s| > 0 && forall i :: 0 <= i < |s| ==> IsDigit(s[i])
  {
    if n < 10 then [Digit(n)] else Decimal(n / 10) + [Digit(n % 10)]
  }

  /** The value of a string of digits; nothing if another character occurs or there is none. */
  function Digits(s: string): Option<nat> {
    if s == "" || !IsDigit(s[|s| - 1]) then None
    else if |s| == 1 then Some(DigitValue(s[0]))
    else
      match Digits(s[..|s| - 1])
      case Some(v) => Some(10 * v + DigitValue(s[|s| - 1]))
      case None => None
  }

  lemma {:induction false} DigitsOfDecimal(n: nat)
    ensures Digits(Decimal(n)) == Some(n)
  {
    var s := Decimal(n);
    if n < 10 {
      assert s == [Digit(n)];
    } else {
      DigitsOfDecimal(n / 10);
      assert s[..|s| - 1] == Decimal(n / 10) && s[|s| - 1] == Digit(n % 10);
    }
  }

  /** Exactly the non-empty strings of digits have a value. */
  lemma {:induction false} DigitsIff(s: string)
    ensures Digits(s).Some? <==> s != "" && forall i :: 0 <= i < |s| ==> IsDigit(s[i])
  {
    if |s| <= 1 {
    } else {
      DigitsIff(s[..|s| - 1]);
      assert forall i :: 0 <= i < |s| - 1 ==> s[i] == s[..|s| - 1][i];
    }
  }

  /** Leading zeros do not count: with `DigitsOfDecimal` this fixes the value of every string of digits. */
  lemma {:induction false} LeadingZero(s: string)
    requires s != ""
    ensures Digits("0" + s) == Digits(s)
  {
    assert ("0" + s)[..|s|] == "0" + s[..|s| - 1];
    if |s| == 1 {
      assert ("0" + s)[..1] == "0";
    } else {
      LeadingZero(s[..|s| - 1]);
    }
  }

  const INT64_MIN: int := -0x8000_0000_0000_0000
  const INT64_MAX: int := 0x7FFF_FFFF_FFFF_FFFF

  /** Go's `strconv.Atoi`: an optional sign, digits, and the range of a 64-bit integer. */
  function Atoi(s: string): Option<int> {
    var signed := s != "" && (s[0] == '+' || s[0] == '-');
    match Digits(if signed then s[1..] else s)
    case None => None
    case Some(v) =>
      var value: int := v;
      var n: int := if signed && s[0] == '-' then -value else value;
      if INT64_MIN <= n <= INT64_MAX then Some(n) else None
  }

  /** `s` is the numeral of `n`: digits, perhaps with leading zeros, after a sign or none. */
  ghost predicate Numeral(s: string, digits: string, n: int) {
    && Digits(digits).Some?
    && var value: int := Digits(digits).value;
       (s == digits && n == value) || (s == "+" + digits && n == value) || (s == "-" + digits && n == -value)
  }

  /** Exactly the signed or unsigned numerals of 64-bit integers are read. */
  lemma AtoiIff(s: string, n: int)
    ensures Atoi(s) == Some(n)
            <==> -0x8000_0000_0000_0000 <= n <= 0x7FFF_FFFF_FFFF_FFFF && exists digits: string :: Numeral(s, digits, n)
  {
    if Atoi(s) == Some(n) {
      if s[0] == '+' || s[0] == '-' {
        assert s == [s[0]] + s[1..];
        assert Numeral(s, s[1..], n);
      } else {
        assert Numeral(s, s, n);
      }
    }
    forall digits: string | Numeral(s, digits, n)
      ensures -0x8000_0000_0000_0000 <= n <= 0x7FFF_FFFF_FFFF_FFFF ==> Atoi(s) == Some(n)
    {
      DigitsIff(digits);
      assert s != digits ==> s[1..] == digits;
    }
  }

  /** The conversion `uint32(id)`: the low 32 bits. */
  function ToUint32(n: int): nat {
    n % 0x1_0000_0000
  }

  // ---- splitting ---------------------------------------------------------------------------

  function Split(s: string): (chunks: seq<string>)
    ensures |chunks| >= 1
  {
    if s == "" then [""]
    else if s[0] == '_' then [""] + Split(s[1..])
    else
      var rest := Split(s[1..]);
      [[s[0]] + rest[0]] + rest[1..]
  }

  function Underscore(): char -> bool { (c: char) => c == '_' }

  /** There is one chunk more than there are underscores. */
  lemma {:induction false} SplitCount(s: string)
    ensures |Split(s)| == Count(s, Underscore()) + 1
  {
    if s == "" {
    } else {
      SplitCount(s[1..]);
      assert s == [s[0]] + s[1..];
      CountConcat([s[0]], s[1..], Underscore());
    }
  }

  /** A memo with exactly one underscore splits into what is before and what is after it. */
  lemma {:induction false} SplitInTwo(before: string, after: string)
    requires '_' !in before && '_' !in after
    ensures Split(before + "_" + after) == [before, after]
  {
    if before == "" {
      SplitNone(after);
      assert (before + "_" + after)[1..] == after;
    } else {
      SplitInTwo(before[1..], after);
      assert (before + "_" + after)[1..] == before[1..] + "_" + after;
      assert before == [before[0]] + before[1..];
    }
  }

  lemma {:induction false} SplitNone(s: string)
    requires '_' !in s
    ensures Split(s) == [s]
  {
    if s == "" {
    } else {
      SplitNone(s[1..]);
      assert s == [s[0]] + s[1..];
    }
  }

  lemma {:induction false} SplitOne(s: string)
    requires |Split(s)| == 1
    ensures '_' !in s && Split(s)[0] == s
  {
    if s == "" {
    } else {
      assert s == [s[0]] + s[1..];
      SplitOne(s[1..]);
    }
  }

  lemma {:induction false} SplitTwo(s: string)
    requires |Split(s)| == 2
    ensures var c := Split(s); s == c[0] + "_" + c[1] && '_' !in c[0] && '_' !in c[1]
  {
    assert s != "";
    assert s == [s[0]] + s[1..];
    if s[0] == '_' {
      SplitOne(s[1..]);
    } else {
      SplitTwo(s[1..]);
      assert s == ([s[0]] + Split(s[1..])[0]) + "_" + Split(s[1..])[1];
    }
  }

  // ---- memos -------------------------------------------------------------------------------

  datatype Kind = Twin | Farm | Node | Entity

  datatype Destination = Destination(kind: Kind, id: nat)

  function KindName(k: Kind): string {
    match k
    case Twin => "twin"
    case Farm => "farm"
    case Node => "node"
    case Entity => "entity"
  }

  function KindOf(name: string): Option<Kind> {
    match name
    case "twin" => Some(Twin)
    case "farm" => Some(Farm)
    case "node" => Some(Node)
    case "entity" => Some(Entity)
    case _ => None
  }

  function ParseMemo(memo: string): Option<Destination> {
    var chunks := Split(memo);
    if |chunks| != 2 then None
    else
      match Atoi(chunks[1])
      case None => None
      case Some(id) =>
        match KindOf(chunks[0])
        case None => None
        case Some(kind) => Some(Destination(kind, ToUint32(id)))
  }

  function PrintMemo(d: Destination): string {
    KindName(d.kind) + "_" + Decimal(d.id)
  }

  lemma KindNames(k: Kind)
    ensures KindOf(KindName(k)) == Some(k) && '_' !in KindName(k)
  {
  }

  lemma AtoiOfDecimal(n: nat)
    ensures Atoi(Decimal(n)) == (if n <= INT64_MAX then Some(n) else None) && '_' !in Decimal(n)
  {
    DigitsOfDecimal(n);
    assert IsDigit(Decimal(n)[0]);
  }

  /** What a printed memo means: the id modulo 2^32, or nothing beyond 63 bits. */
  lemma PrintedMemo(d: Destination)
    ensures ParseMemo(PrintMemo(d)) == if d.id <= INT64_MAX then Some(Destination(d.kind, ToUint32(d.id))) else None
  {
    KindNames(d.kind);
    AtoiOfDecimal(d.id);
    SplitInTwo(KindName(d.kind), Decimal(d.id));
  }

  /** Printing and parsing gives a destination back exactly when its id fits 32 bits: beyond, it wraps silently. */
  lemma MemoRoundTripIff(d: Destination)
    ensures ParseMemo(PrintMemo(d)) == Some(d) <==> d.id < 0x1_0000_0000
  {
    PrintedMemo(d);
  }

  /** `memo` names `d`: a known kind, one underscore, and a 64-bit integer with the id as its low 32 bits. */
  ghost predicate Names(memo: string, d: Destination) {
    exists number: string ::
      && memo == KindName(d.kind) + "_" + number && '_' !in number
      && Atoi(number).Some? && ToUint32(Atoi(number).value) == d.id
  }

  /** Exactly the memos that name a destination are accepted; all others are refunded. */
  lemma MemoAcceptedIff(memo: string, d: Destination)
    ensures ParseMemo(memo) == Some(d) <==> Names(memo, d)
  {
    if ParseMemo(memo) == Some(d) {
      SplitTwo(memo);
      assert KindName(d.kind) == Split(memo)[0];
    }
    if Names(memo, d) {
      var number: string :|
        && memo == KindName(d.kind) + "_" + number && '_' !in number
        && Atoi(number).Some? && ToUint32(Atoi(number).value) == d.id;
      KindNames(d.kind);
      SplitInTwo(KindName(d.kind), number);
    }
  }

  /** A memo without exactly one underscore is always rejected. */
  lemma MemoNeedsOneUnderscore(memo: string)
    ensures ParseMemo(memo).Some? ==> Count(memo, Underscore()) == 1
  {
    SplitCount(memo);
  }

  // ---- grid objects ------------------------------------------------------------------------

  /** The grid objects registered on TFChain. */
  datatype Directory = Directory(
    twins: map<nat, AccountId>, farms: map<nat, nat>, nodes: map<nat, nat>, entities: map<nat, AccountId>)

  function TwinAccount(dir: Directory, id: nat): Option<AccountId> {
    if id in dir.twins then Some(dir.twins[id]) else None
  }

  /** The account behind a memo; farms and nodes are paid through their twin. */
  function Resolve(dir: Directory, memo: string): Option<AccountId> {
    match ParseMemo(memo)
    case None => None
    case Some(Destination(Twin, id)) => TwinAccount(dir, id)
    case Some(Destination(Farm, id)) => if id in dir.farms then TwinAccount(dir, dir.farms[id]) else None
    case Some(Destination(Node, id)) => if id in dir.nodes then TwinAccount(dir, dir.nodes[id]) else None
    case Some(Destination(Entity, id)) => if id in dir.entities then Some(dir.entities[id]) else None
  }

  /** The account that a memo with this number names: a twin's or an entity's own, a farm's or node's twin's. */
  ghost predicate OwnerNamed(dir: Directory, memo: string, number: string, account: AccountId) {
    && Atoi(number).Some?
    && var id := Atoi(number).value % 0x1_0000_0000;
       || (memo == "twin_" + number && id in dir.twins && dir.twins[id] == account)
       || (memo == "entity_" + number && id in dir.entities && dir.entities[id] == account)
       || (memo == "farm_" + number && id in dir.farms
           && dir.farms[id] in dir.twins && dir.twins[dir.farms[id]] == account)
       || (memo == "node_" + number && id in dir.nodes
           && dir.nodes[id] in dir.twins && dir.twins[dir.nodes[id]] == account)
  }

  /** The memo names this account by some number. */
  ghost predicate NamesAccount(dir: Directory, memo: string, account: AccountId) {
    exists number: string :: OwnerNamed(dir, memo, number, account)
  }

  /** A number that is read holds no underscore. */
  lemma AtoiHasNoUnderscore(number: string)
    requires Atoi(number).Some?
    ensures '_' !in number
  {
    var signed := number[0] == '+' || number[0] == '-';
    var digits := if signed then number[1..] else number;
    DigitsIff(digits);
    if signed { assert number == [number[0]] + digits; }
  }

  lemma ParsedMemo(kind: Kind, number: string)
    requires Atoi(number).Some?
    ensures ParseMemo(KindName(kind) + "_" + number) == Some(Destination(kind, ToUint32(Atoi(number).value)))
  {
    AtoiHasNoUnderscore(number);
    KindNames(kind);
    SplitInTwo(KindName(kind), number);
  }

  /** Which account a memo is resolved to, if any: the registered owner of what it names. */
  lemma ResolveIff(dir: Directory, memo: string, account: AccountId)
    ensures Resolve(dir, memo) == Some(account) <==> NamesAccount(dir, memo, account)
  {
    if Resolve(dir, memo) == Some(account) {
      var d := ParseMemo(memo).value;
      MemoAcceptedIff(memo, d);
      var number: string :| memo == KindName(d.kind) + "_" + number && '_' !in number
                            && Atoi(number).Some? && ToUint32(Atoi(number).value) == d.id;
      PrefixOf(d.kind, number);
      assert OwnerNamed(dir, memo, number, account);
    }
    forall number: string | OwnerNamed(dir, memo, number, account)
      ensures Resolve(dir, memo) == Some(account)
    {
      var kind := if memo == "twin_" + number then Twin else if memo == "entity_" + number then Entity
                  else if memo == "farm_" + number then Farm else Node;
      PrefixOf(kind, number);
      ParsedMemo(kind, number);
      PrefixesDiffer(number);
    }
  }

  lemma PrefixOf(kind: Kind, number: string)
    ensures KindName(kind) + "_" + number
         == match kind
            case Twin => "twin_" + number
            case Farm => "farm_" + number
            case Node => "node_" + number
            case Entity => "entity_" + number
  {
    assert "twin" + "_" == "twin_" && "farm" + "_" == "farm_" && "node" + "_" == "node_" && "entity" + "_" == "entity_";
  }

  lemma PrefixesDiffer(number: string)
    ensures "twin_" + number != "entity_" + number && "twin_" + number != "farm_" + number
    ensures "twin_" + number != "node_" + number && "entity_" + number != "farm_" + number
    ensures "entity_" + number != "node_" + number && "farm_" + number != "node_" + number
  {
    assert ("twin_" + number)[0] == 't' && ("entity_" + number)[0] == 'e';
    assert ("farm_" + number)[0] == 'f' && ("node_" + number)[0] == 'n';
  }

  // ---- mint ids of withdrawals that are minted back ------------------------------------------

  function RefundMintId(burnId: nat): string {
    "refund-" + Decimal(burnId)
  }

  predicate IsHexHash(s: string) {
    |s| == 64 && forall i :: 0 <= i < |s| ==> IsDigit(s[i]) || 'a' <= s[i] <= 'f'
  }

  lemma RefundMintIdsDiffer(a: nat, b: nat)
    requires RefundMintId(a) == RefundMintId(b)
    ensures a == b
  {
    assert RefundMintId(a)[7..] == Decimal(a) && RefundMintId(b)[7..] == Decimal(b);
    DigitsOfDecimal(a);
    DigitsOfDecimal(b);
  }

  /** The id is `refund-` and the number of the burn, so never a hash. */
  lemma RefundMintIdIsNoHash(burnId: nat)
    ensures |RefundMintId(burnId)| > 7 && RefundMintId(burnId)[..7] == "refund-"
    ensures Digits(RefundMintId(burnId)[7..]) == Some(burnId)
    ensures !IsHexHash(RefundMintId(burnId))
  {
    assert RefundMintId(burnId)[7..] == Decimal(burnId);
    DigitsOfDecimal(burnId);
    assert RefundMintId(burnId)[0] == 'r';
  }
}
