/**
 * The decision logic of the REST handlers in server/routes.ts, as functions
 * of the request values and the store's tables: the `limit` query
 * parameter read with JavaScript's `parseInt(..) || default`, the
 * check-answer short-circuit, buy-item, buy-coins and the payment webhook.
 */
module Rest {
  import opened Wrappers
  import opened Storage

  // ---------------------------------------------------------------- JavaScript parseInt

  /** The characters JavaScript's parseInt skips at the start: white space and line terminators. */
  predicate IsJsSpace(c: char) {
    || c == '\t' || c == '\n' || c == '\U{B}' || c == '\U{C}' || c == '\r' || c == ' '
    || c == '\U{A0}' || c == '\U{1680}' || ('\U{2000}' <= c <= '\U{200A}')
    || c == '\U{2028}' || c == '\U{2029}' || c == '\U{202F}' || c == '\U{205F}'
    || c == '\U{3000}' || c == '\U{FEFF}'
  }

  predicate IsDecimalDigit(c: char) {
    '0' <= c <= '9'
  }

  /** A digit of base `radix`, which is 10 or 16. */
  predicate IsRadixDigit(c: char, radix: nat) {
    || IsDecimalDigit(c)
    || (radix == 16 && (('a' <= c <= 'f') || ('A' <= c <= 'F')))
  }

  function DigitValue(c: char): nat {
    if IsDecimalDigit(c) then (c - '0') as nat
    else if 'a' <= c <= 'f' then (c - 'a') as nat + 10
    else if 'A' <= c <= 'F' then (c - 'A') as nat + 10
    else 0
  }

  /** The string without its leading white space. */
  function TrimStart(s: string): (r: string)
    ensures |r| <= |s| && r == s[|s| - |r|..]
    ensures forall i :: 0 <= i < |s| - |r| ==> IsJsSpace(s[i])
    ensures r == [] || !IsJsSpace(r[0])
  {
    if s != [] && IsJsSpace(s[0]) then TrimStart(s[1..]) else s
  }

  /** The longest prefix of `s` made of digits of base `radix`. */
  function DigitPrefix(s: string, radix: nat): (r: string)
    ensures r <= s
    ensures forall i :: 0 <= i < |r| ==> IsRadixDigit(r[i], radix)
    ensures |r| == |s| || !IsRadixDigit(s[|r|], radix)
  {
    if s != [] && IsRadixDigit(s[0], radix) then [s[0]] + DigitPrefix(s[1..], radix) else []
  }

  /** The number the digits denote in base `radix`, most significant first. */
  function Value(ds: string, radix: nat): nat {
    if ds == [] then 0 else Value(ds[..|ds| - 1], radix) * radix + DigitValue(ds[|ds| - 1])
  }

  /**
   * `parseInt(s)` without a radix: leading white space is skipped, one sign
   * is read, a `0x`/`0X` prefix selects base 16, and the longest run of
   * digits that follows is read; with no digit the result is NaN (None).
   * A `-0` result is the integer 0.
   */
  function ParseInt(s: string): (r: Option<int>)
    ensures TrimStart(s) == [] ==> r.None?
    ensures r.Some? && r.value < 0 ==> TrimStart(s)[0] == '-'
  {
    ParseNumber(TrimStart(s))
  }

  /** parseInt after the white space: one optional sign, then the number. */
  function ParseNumber(t: string): (r: Option<int>)
    ensures t == [] ==> r.None?
    ensures r.Some? && r.value < 0 ==> t[0] == '-'
  {
    if t != [] && t[0] == '-' then
      match ParseUnsigned(t[1..])
      case None => None
      case Some(v) => Some(-(v as int))
    else if t != [] && t[0] == '+' then ParseUnsigned(t[1..])
    else ParseUnsigned(t)
  }

  /**
   * The number after the sign: a `0x`/`0X` prefix selects base 16, and the
   * longest run of digits that follows is read; with no digit the result
   * is NaN (None).
   */
  function ParseUnsigned(u: string): (r: Option<nat>)
    ensures u == [] ==> r.None?
  {
    var hex := |u| >= 2 && u[0] == '0' && (u[1] == 'x' || u[1] == 'X');
    var radix := if hex then 16 else 10;
    var digits := DigitPrefix(if hex then u[2..] else u, radix);
    if digits == [] then None else Some(Value(digits, radix))
  }

  /** The decimal numeral of `n`, without leading zeros. */
  function NatToString(n: nat): (r: string)
    ensures |r| >= 1
    ensures forall i :: 0 <= i < |r| ==> IsDecimalDigit(r[i])
    ensures r[0] == '0' ==> n == 0 && |r| == 1
  {
    if n < 10 then ['0' + n as char] else NatToString(n / 10) + ['0' + (n % 10) as char]
  }

  /** The decimal numeral of `n`, with a `-` when it is negative. */
  function IntToString(n: int): string {
    if n < 0 then "-" + NatToString(-n) else NatToString(n)
  }

  /** A decimal numeral denotes its number. */
  lemma {:induction false} ValueOfNumeral(n: nat)
    ensures Value(NatToString(n), 10) == n
  {
    if n >= 10 {
      var front := NatToString(n / 10);
      var s := front + ['0' + (n % 10) as char];
      assert s[..|s| - 1] == front;
      ValueOfNumeral(n / 10);
    }
  }

  /** parseInt reads back every integer's numeral. */
  lemma ParseIntOfNumeral(n: int)
    ensures ParseInt(IntToString(n)) == Some(n)
  {
    NumeralStart(n);
    ParseIntUnspaced(IntToString(n));
    if n < 0 {
      SignedNumber(-n);
    } else {
      DigitsNumber(n);
    }
  }

  /** A numeral begins with a sign or a digit. */
  lemma NumeralStart(n: int)
    ensures IntToString(n) != [] && !IsJsSpace(IntToString(n)[0])
  {
    var s := IntToString(n);
    assert s[0] == '-' || IsDecimalDigit(s[0]);
  }

  /** With nothing to skip, parseInt reads the sign and the number directly. */
  lemma ParseIntUnspaced(s: string)
    requires s != [] && !IsJsSpace(s[0])
    ensures ParseInt(s) == ParseNumber(s)
  {
  }

  /** The digits of a numeral read back as its number. */
  lemma DigitsNumber(n: nat)
    ensures ParseNumber(NatToString(n)) == Some(n)
  {
    UnsignedNumeral(n);
  }

  /** A minus sign and the digits of `n` read back as `-n`. */
  lemma SignedNumber(n: nat)
    ensures ParseNumber("-" + NatToString(n)) == Some(-(n as int))
  {
    UnsignedNumeral(n);
    Negated(NatToString(n));
  }

  /** A minus sign negates the number that follows it. */
  lemma Negated(u: string)
    ensures ParseNumber("-" + u) == if ParseUnsigned(u).None? then None else Some(-(ParseUnsigned(u).value as int))
  {
    assert ("-" + u)[0] == '-' && ("-" + u)[1..] == u;
  }

  /** Without its sign, a numeral's digits read back as its number. */
  lemma UnsignedNumeral(n: nat)
    ensures ParseUnsigned(NatToString(n)) == Some(n)
  {
    var digits := NatToString(n);
    assert DigitPrefix(digits, 10) == digits;
    ValueOfNumeral(n);
  }

  /** Leading white space does not change what parseInt reads. */
  lemma ParseIntSkipsSpace(c: char, s: string)
    requires IsJsSpace(c)
    ensures ParseInt([c] + s) == ParseInt(s)
  {
    assert ([c] + s)[1..] == s;
    assert TrimStart([c] + s) == TrimStart(s);
  }

  /**
   * `parseInt(req.query.limit) || dflt`: NaN (also for a missing parameter)
   * and 0 fall back to the default; any other number, negative ones
   * included, is used as it is.
   */
  function LimitOrDefault(param: Option<string>, dflt: int): (r: int)
    ensures param.None? ==> r == dflt
    ensures r == dflt || (param.Some? && ParseInt(param.value) == Some(r))
    ensures r == 0 ==> dflt == 0
    ensures param.Some? && ParseInt(param.value).Some? && ParseInt(param.value).value != 0 ==>
              r == ParseInt(param.value).value
  {
    match param
    case None => dflt
    case Some(s) =>
      match ParseInt(s)
      case None => dflt
      case Some(n) => if n == 0 then dflt else n
  }

  /** A numeral as the parameter gives its number, except that 0 gives the default. */
  lemma LimitOfNumeral(n: int, dflt: int)
    ensures LimitOrDefault(Some(IntToString(n)), dflt) == if n == 0 then dflt else n
  {
    ParseIntOfNumeral(n);
  }

  /**
   * GET /api/leaderboard: the limit defaults to 50; a negative limit makes
   * the query fail (None, answered with 500).
   */
  function LeaderboardRoute(t: Tables, limitParam: Option<string>): (r: Option<seq<RankedUser>>)
    ensures limitParam.None? ==> r.Some? && |r.value| <= 50
    ensures r.None? <==> LimitOrDefault(limitParam, 50) < 0
    ensures r.Some? ==> |r.value| <= LimitOrDefault(limitParam, 50)
  {
    GetLeaderboard(t, LimitOrDefault(limitParam, 50))
  }

  /** A negative numeral as the limit is passed through to the query, which rejects it. */
  lemma NegativeLimitFails(t: Tables, n: int)
    requires n < 0
    ensures LeaderboardRoute(t, Some(IntToString(n))).None?
  {
    LimitOfNumeral(n, 50);
  }

  // ---------------------------------------------------------------- check-answer

  /**
   * POST /api/questions/:questionId/check-answer: a missing or empty answer
   * is incorrect without asking the store; any other answer is what the
   * store's check says.
   */
  function CheckAnswer(answer: Option<string>, isCorrect: string -> bool): (r: bool)
    ensures answer.None? || answer.value == [] ==> !r
    ensures answer.Some? && answer.value != [] ==> r == isCorrect(answer.value)
  {
    match answer
    case None => false
    case Some(a) => if a == [] then false else isCorrect(a)
  }

  // ---------------------------------------------------------------- buy-item

  /** The balance the handlers read: NULL coins count as 0. */
  function Balance(u: User): (r: int)
    ensures u.coins.None? ==> r == 0
    ensures u.coins.Some? ==> r == u.coins.value
  {
    u.coins.GetOr(0)
  }

  /** A 400 "Insufficient coins" reply, or a purchase with the balance it reports and the new tables. */
  datatype ItemPurchase = Insufficient | Bought(newBalance: int, tables: Tables)

  /**
   * POST /api/users/:userId/buy-item: refused, with nothing written, when
   * the user is missing or its balance is below the cost; otherwise the
   * balance drops by the cost (never below zero) and the items are added.
   */
  function BuyItem(t: Tables, userId: UserId, itemType: string, quantity: int, cost: int): (r: ItemPurchase)
    ensures r.Insufficient? <==> FindUser(t.users, userId).None? || Balance(FindUser(t.users, userId).value) < cost
    ensures r.Bought? ==>
      && r.newBalance == Balance(FindUser(t.users, userId).value) - cost
      && r.newBalance >= 0
      && FindUser(r.tables.users, userId) == Some(FindUser(t.users, userId).value.(coins := Some(r.newBalance)))
      && QuantityOf(r.tables.inventory, userId, itemType) == Some(QuantityOf(t.inventory, userId, itemType).GetOr(0) + quantity)
    ensures r.Bought? ==> forall x :: x != userId ==> FindUser(r.tables.users, x) == FindUser(t.users, x)
    ensures r.Bought? ==> forall u, it :: (u != userId || it != itemType) ==>
                             QuantityOf(r.tables.inventory, u, it) == QuantityOf(t.inventory, u, it)
    ensures r.Bought? ==> r.tables.(users := t.users, inventory := t.inventory) == t
  {
    match FindUser(t.users, userId)
    case None => Insufficient
    case Some(u) =>
      if Balance(u) < cost then Insufficient
      else
        var paid := CoinsUpdated(t, userId, Balance(u) - cost);
        Bought(Balance(u) - cost, AddedToInventory(paid, userId, itemType, quantity))
  }

  /** Buying keeps the inventory's one-row-per-item key. */
  lemma BuyItemKeepsUniqueItems(t: Tables, userId: UserId, itemType: string, quantity: int, cost: int)
    requires UniqueItems(t.inventory)
    ensures BuyItem(t, userId, itemType, quantity, cost).Bought? ==>
            UniqueItems(BuyItem(t, userId, itemType, quantity, cost).tables.inventory)
  {
  }

  // ---------------------------------------------------------------- buy-coins

  /** The replies of buy-coins. */
  datatype CoinsPurchase = UsePaymentFlow | UserNotFound | Credited(newBalance: int, tables: Tables)

  /**
   * POST /api/users/:userId/buy-coins: with the payment provider configured
   * the request is turned away; otherwise a missing user gets 404 and an
   * existing one is credited `coins`, with no payment taken.
   */
  function BuyCoins(t: Tables, userId: UserId, coins: int, providerConfigured: bool): (r: CoinsPurchase)
    ensures r.UsePaymentFlow? <==> providerConfigured
    ensures r.UserNotFound? <==> !providerConfigured && FindUser(t.users, userId).None?
    ensures r.Credited? ==>
      && r.newBalance == Balance(FindUser(t.users, userId).value) + coins
      && FindUser(r.tables.users, userId) == Some(FindUser(t.users, userId).value.(coins := Some(r.newBalance)))
      && (forall x :: x != userId ==> FindUser(r.tables.users, x) == FindUser(t.users, x))
      && r.tables.(users := t.users) == t
  {
    if providerConfigured then UsePaymentFlow
    else
      match FindUser(t.users, userId)
      case None => UserNotFound
      case Some(u) => Credited(Balance(u) + coins, CoinsUpdated(t, userId, Balance(u) + coins))
  }

  // ---------------------------------------------------------------- payment webhook

  /** The fields of a payment notification the webhook reads; absent ones are None. */
  datatype Payment = Payment(status: Option<string>, userId: Option<string>, coins: Option<string>)

  /** The request body: the payment is its `object` field (`wrapped`) when present, else the body itself. */
  datatype WebhookBody = WebhookBody(wrapped: Option<Payment>, top: Payment)

  /** The reply status and the tables after the webhook. */
  datatype WebhookReply = WebhookReply(status: nat, tables: Tables)

  function PaymentOf(body: WebhookBody): (r: Payment)
    ensures body.wrapped.Some? ==> r == body.wrapped.value
    ensures body.wrapped.None? ==> r == body.top
  {
    body.wrapped.GetOr(body.top)
  }

  /**
   * `parseInt(metadata.coins || '0')`: a missing or empty field reads as
   * 0, which is what parseInt makes of "0" (ZeroNumeral).
   */
  function CoinsOf(p: Payment): (r: Option<int>)
    ensures p.coins.None? || p.coins.value == [] ==> r == Some(0)
    ensures p.coins.Some? && p.coins.value != [] ==> r == ParseInt(p.coins.value)
  {
    if p.coins.None? || p.coins.value == [] then Some(0) else ParseInt(p.coins.value)
  }

  /** The default the webhook substitutes for a missing amount reads as 0. */
  lemma ZeroNumeral()
    ensures ParseInt("0") == Some(0)
  {
    ParseIntOfNumeral(0);
  }

  /** An amount written as a numeral is read as its number. */
  lemma CoinsOfNumeral(p: Payment, n: int)
    requires p.coins == Some(IntToString(n))
    ensures CoinsOf(p) == Some(n)
  {
    NumeralStart(n);
    ParseIntOfNumeral(n);
  }

  /** Adds `amount` to an existing user's balance (a NULL balance counting as 0). */
  function Credit(t: Tables, userId: UserId, amount: int): (r: Tables)
    requires FindUser(t.users, userId).Some?
    ensures FindUser(r.users, userId) ==
            Some(FindUser(t.users, userId).value.(coins := Some(Balance(FindUser(t.users, userId).value) + amount)))
    ensures forall x :: x != userId ==> FindUser(r.users, x) == FindUser(t.users, x)
    ensures r.(users := t.users) == t
  {
    CoinsUpdated(t, userId, Balance(FindUser(t.users, userId).value) + amount)
  }

  /**
   * The payment, carrying `amount` coins, credits: it succeeded, names a
   * user that exists and the amount is a positive number.
   */
  predicate Pays(t: Tables, p: Payment, amount: Option<int>) {
    && p.status == Some("succeeded")
    && p.userId.Some? && p.userId.value != []
    && amount.Some? && amount.value > 0
    && FindUser(t.users, p.userId.value).Some?
  }

  /** The payment credits the coins its metadata names. */
  predicate Credits(t: Tables, p: Payment) {
    Pays(t, p, CoinsOf(p))
  }

  /**
   * The webhook's decision once the amount is read: the user's balance
   * grows by `amount` exactly when the payment pays, and nothing is
   * written otherwise.
   */
  function Settle(t: Tables, p: Payment, amount: Option<int>): (r: Tables)
    ensures !Pays(t, p, amount) ==> r == t
    ensures Pays(t, p, amount) ==>
      && FindUser(r.users, p.userId.value) ==
         Some(FindUser(t.users, p.userId.value).value.(coins := Some(Balance(FindUser(t.users, p.userId.value).value) + amount.value)))
      && (forall x :: x != p.userId.value ==> FindUser(r.users, x) == FindUser(t.users, x))
      && r.(users := t.users) == t
  {
    if p.status != Some("succeeded") then t
    else if p.userId.None? || p.userId.value == [] || amount.None? || amount.value <= 0 then t
    else if FindUser(t.users, p.userId.value).None? then t
    else Credit(t, p.userId.value, amount.value)
  }

  /**
   * POST /api/payment-webhook: always answers 200; the user's balance grows
   * by the payment's coins exactly when the payment credits, and nothing is
   * written otherwise.
   */
  function Webhook(t: Tables, body: WebhookBody): (r: WebhookReply)
    ensures r.status == 200
    ensures !Credits(t, PaymentOf(body)) ==> r.tables == t
    ensures Credits(t, PaymentOf(body)) ==>
      r.tables == Credit(t, PaymentOf(body).userId.value, CoinsOf(PaymentOf(body)).value)
  {
    var p := PaymentOf(body);
    WebhookReply(200, Settle(t, p, CoinsOf(p)))
  }

  /**
   * The webhook keeps no record of the payments it has seen: the same
   * notification delivered twice credits the user twice.
   */
  lemma WebhookReplayCreditsTwice(t: Tables, body: WebhookBody)
    requires Credits(t, PaymentOf(body))
    ensures var p := PaymentOf(body);
      var once := Webhook(t, body).tables;
      && Credits(once, p)
      && Webhook(once, body).tables == Credit(Credit(t, p.userId.value, CoinsOf(p).value), p.userId.value, CoinsOf(p).value)
  {
    var p := PaymentOf(body);
    var once := Webhook(t, body).tables;
    assert FindUser(once.users, p.userId.value).Some?;
  }

  /** Crediting the same amount twice adds it twice. */
  lemma CreditTwice(t: Tables, userId: UserId, amount: int)
    requires FindUser(t.users, userId).Some?
    ensures var twice := Credit(Credit(t, userId, amount), userId, amount);
      FindUser(twice.users, userId).value.coins == Some(Balance(FindUser(t.users, userId).value) + 2 * amount)
  {
    var once := Credit(t, userId, amount);
    assert Balance(FindUser(once.users, userId).value) == Balance(FindUser(t.users, userId).value) + amount;
  }
}
