/** The keys the tracker goes by: the order an execution belongs to, the unique keys of the rows, and the id it builds. */
module FillIdentity {
  import opened Wrappers
  import opened ScaledDecimal
  import opened PositionBook
  import opened Orders
  import opened FillLedger

  // ---------------------------------------------------------------- the order of an execution

  /** Tab, line feed, vertical tab, form feed, carriage return, the spaces of Unicode, its separators and the byte order mark. */
  const WHITE_SPACE := {9, 10, 11, 12, 13, 32, 160, 5760, 8192, 8193, 8194, 8195, 8196, 8197, 8198, 8199, 8200, 8201, 8202}
                       + {8232, 8233, 8239, 8287, 12288, 65279}

  predicate Blank(s: string) { forall i :: 0 <= i < |s| ==> s[i] as int in WHITE_SPACE }

  /** The order is of the execution's account and carries its order number in a handle, or its client id when there is no number. */
  predicate BelongsTo(p: Payload, o: Order) {
    && o.accountExternalId == Trim(p.accountId)
    && (!Blank(p.vendorOrderId) ==> Some(Trim(p.vendorOrderId)) in [o.externalOrderId, o.brokerOrderId])
    && (Blank(p.vendorOrderId) ==> !Blank(p.clientOrderId) && o.clientOrderId == Some(Trim(p.clientOrderId)))
  }

  lemma {:induction false} TrimStartBlank(s: string)
    ensures TrimStart(s) == "" <==> Blank(s)
    ensures TrimStart(s) != "" ==> !IsSpace(TrimStart(s)[0])
  {
    if s != "" && IsSpace(s[0]) {
      TrimStartBlank(s[1..]);
      assert s == [s[0]] + s[1..];
    }
  }

  lemma TrimBlank(s: string)
    ensures Trim(s) == "" <==> Blank(s)
  {
    TrimStartBlank(s);
    TrimEndKeepsFirst(TrimStart(s));
  }

  lemma {:induction false} TrimEndKeepsFirst(s: string)
    requires s != "" ==> !IsSpace(s[0])
    ensures TrimEnd(s) == "" <==> s == ""
  {
    if |s| > 1 && IsSpace(s[|s| - 1]) {
      TrimEndKeepsFirst(s[..|s| - 1]);
    }
  }

  /** An execution goes to the highest id among the orders it belongs to, and to none when it belongs to none. */
  lemma FoundExactlyWhen(orders: map<int, Order>, p: Payload, id: int)
    ensures FindOrder(orders, p) == Some(id) <==>
              && id in orders && BelongsTo(p, orders[id])
              && forall other :: other in orders && BelongsTo(p, orders[other]) ==> other <= id
  {
    hide Matches, BelongsTo;
    forall o: Order ensures Matches(o, p) <==> BelongsTo(p, o) {
      MatchingIsBelonging(o, p);
    }
  }

  lemma MatchingIsBelonging(o: Order, p: Payload)
    ensures Matches(o, p) <==> BelongsTo(p, o)
  {
    hide Trim, Blank, WHITE_SPACE;
    TrimBlank(p.vendorOrderId);
    TrimBlank(p.clientOrderId);
  }

  // ---------------------------------------------------------------- unique keys

  function OutboxKeys(outbox: seq<OutboxRow>): set<(string, string, string)> {
    set row | row in outbox :: (row.provider, row.marketEnv, row.externalFillId)
  }

  /** Inserting into the outbox keeps its rows and adds the row exactly when its provider, environment and id are new together. */
  lemma OutboxKeyIsUnique(outbox: seq<OutboxRow>, row: OutboxRow)
    ensures var key := (row.provider, row.marketEnv, row.externalFillId);
            && OutboxKeys(InsertOutbox(outbox, row)) == OutboxKeys(outbox) + {key}
            && InsertOutbox(outbox, row) == if key in OutboxKeys(outbox) then outbox else outbox + [row]
  {
    var key := (row.provider, row.marketEnv, row.externalFillId);
    if HasOutboxKey(outbox, row.provider, row.marketEnv, row.externalFillId) {
      var i :| 0 <= i < |outbox| && outbox[i].provider == row.provider && outbox[i].marketEnv == row.marketEnv
        && outbox[i].externalFillId == row.externalFillId;
      assert outbox[i] in outbox;
    } else {
      assert key !in OutboxKeys(outbox);
    }
  }

  // ---------------------------------------------------------------- the built id

  /** No separator in a text. */
  predicate Plain(s: string) { ':' !in s }

  lemma SplitFirst(a: string, b: string, s: string, t: string)
    requires Plain(a) && Plain(b) && a + ":" + s == b + ":" + t
    ensures a == b && s == t
  {
    var x, y := a + ":" + s, b + ":" + t;
    assert x[|a|] == ':' && forall i :: 0 <= i < |a| ==> x[i] != ':';
    assert y[|b|] == ':' && forall i :: 0 <= i < |b| ==> y[i] != ':';
    assert x[..|a|] == a && y[..|b|] == b && x[|a| + 1..] == s && y[|b| + 1..] == t;
  }

  lemma SplitLast(a: string, b: string, s: string, t: string)
    requires Plain(a) && Plain(b) && s + ":" + a == t + ":" + b
    ensures a == b && s == t
  {
    var x, y := s + ":" + a, t + ":" + b;
    assert x[|s|] == ':' && forall i :: |s| < i < |x| ==> x[i] != ':';
    assert y[|t|] == ':' && forall i :: |t| < i < |y| ==> y[i] != ':';
    assert x[..|s|] == s && y[..|t|] == t && x[|s| + 1..] == a && y[|t| + 1..] == b;
  }

  lemma PrintedIsPlain(value: int, scale: nat)
    ensures Plain(ScaledToDecimal(value, scale))
  {
    hide WholeDigits, FractionDigits;
    PrintIsCanonical(value, scale);
  }

  lemma PrintedTellsApart(a: int, b: int, scale: nat)
    requires ScaledToDecimal(a, scale) == ScaledToDecimal(b, scale)
    ensures a == b
  {
    hide ScaledToDecimal, DecimalToScaled;
    ParseUndoesPrint(a, scale);
    ParseUndoesPrint(b, scale);
  }

  /** The provider, the environment, the account and the order number hold no separator. */
  predicate Separable(p: Payload) {
    Plain(p.provider) && Plain(p.marketEnv) && Plain(p.accountId) && Plain(p.vendorOrderId)
  }

  predicate SameExecution(p: Payload, q: Payload) {
    && p.provider == q.provider && p.marketEnv == q.marketEnv && p.accountId == q.accountId
    && p.vendorOrderId == q.vendorOrderId && p.filledAt == q.filledAt
    && p.filledQty == q.filledQty && p.filledPrice == q.filledPrice
  }

  function TimeOnwards(p: Payload): string {
    p.filledAt + ":" + ScaledToDecimal(p.filledQty, 8) + ":" + ScaledToDecimal(p.filledPrice, 6)
  }

  lemma IdParts(p: Payload)
    ensures BuildExternalFillId(p)
         == p.provider + ":" + (p.marketEnv + ":" + (p.accountId + ":" + (p.vendorOrderId + ":" + TimeOnwards(p))))
  {
    hide ScaledToDecimal;
    var quantity, price := ScaledToDecimal(p.filledQty, 8), ScaledToDecimal(p.filledPrice, 6);
    Regroup(p.accountId, p.vendorOrderId, p.filledAt + ":" + quantity + ":" + price);
    assert p.vendorOrderId + ":" + p.filledAt + ":" + quantity + ":" + price
        == p.vendorOrderId + ":" + (p.filledAt + ":" + quantity + ":" + price);
    assert BuildExternalFillId(p) == p.provider + ":" + (p.marketEnv + ":" + (p.accountId + ":" + (p.vendorOrderId + ":" + p.filledAt + ":" + quantity + ":" + price)));
  }

  lemma Regroup(a: string, b: string, rest: string)
    ensures a + ":" + b + ":" + rest == a + ":" + (b + ":" + rest)
  {
  }

  /**
   * When their accounts and order numbers hold no colon, two executions get one id exactly when they
   * are of one order at one time, quantity and price, whatever the spelling of the time.
   */
  lemma SameIdExactlyWhen(p: Payload, q: Payload)
    requires Separable(p) && Separable(q)
    ensures BuildExternalFillId(p) == BuildExternalFillId(q) <==> SameExecution(p, q)
  {
    hide ScaledToDecimal, BuildExternalFillId, TimeOnwards;
    IdParts(p);
    IdParts(q);
    if BuildExternalFillId(p) == BuildExternalFillId(q) {
      SplitFirst(p.provider, q.provider, p.marketEnv + ":" + (p.accountId + ":" + (p.vendorOrderId + ":" + TimeOnwards(p))),
                 q.marketEnv + ":" + (q.accountId + ":" + (q.vendorOrderId + ":" + TimeOnwards(q))));
      SplitFirst(p.marketEnv, q.marketEnv, p.accountId + ":" + (p.vendorOrderId + ":" + TimeOnwards(p)),
                 q.accountId + ":" + (q.vendorOrderId + ":" + TimeOnwards(q)));
      SplitFirst(p.accountId, q.accountId, p.vendorOrderId + ":" + TimeOnwards(p), q.vendorOrderId + ":" + TimeOnwards(q));
      SplitFirst(p.vendorOrderId, q.vendorOrderId, TimeOnwards(p), TimeOnwards(q));
      TimeOnwardsTellsApart(p, q);
    } else {
      TimeOnwardsSame(p, q);
    }
  }

  lemma TimeOnwardsSame(p: Payload, q: Payload)
    ensures p.filledAt == q.filledAt && p.filledQty == q.filledQty && p.filledPrice == q.filledPrice ==> TimeOnwards(p) == TimeOnwards(q)
  {
  }

  lemma TimeOnwardsTellsApart(p: Payload, q: Payload)
    requires TimeOnwards(p) == TimeOnwards(q)
    ensures p.filledAt == q.filledAt && p.filledQty == q.filledQty && p.filledPrice == q.filledPrice
  {
    hide ScaledToDecimal;
    PrintedIsPlain(p.filledQty, 8);
    PrintedIsPlain(q.filledQty, 8);
    PrintedIsPlain(p.filledPrice, 6);
    PrintedIsPlain(q.filledPrice, 6);
    SplitLast(ScaledToDecimal(p.filledPrice, 6), ScaledToDecimal(q.filledPrice, 6),
              p.filledAt + ":" + ScaledToDecimal(p.filledQty, 8), q.filledAt + ":" + ScaledToDecimal(q.filledQty, 8));
    SplitLast(ScaledToDecimal(p.filledQty, 8), ScaledToDecimal(q.filledQty, 8), p.filledAt, q.filledAt);
    PrintedTellsApart(p.filledQty, q.filledQty, 8);
    PrintedTellsApart(p.filledPrice, q.filledPrice, 6);
  }

  /** With a colon in the account, or in the order number, executions of different orders can get one id. */
  lemma ColonsCollide(p: Payload, account: string, middle: string, order: string)
    ensures BuildExternalFillId(p.(accountId := account + ":" + middle, vendorOrderId := order))
         == BuildExternalFillId(p.(accountId := account, vendorOrderId := middle + ":" + order))
  {
    hide ScaledToDecimal, BuildExternalFillId;
    var x, y := p.(accountId := account + ":" + middle, vendorOrderId := order), p.(accountId := account, vendorOrderId := middle + ":" + order);
    IdParts(x);
    IdParts(y);
    assert TimeOnwards(x) == TimeOnwards(y);
    Regroup(account, middle, order + ":" + TimeOnwards(x));
    Regroup(middle, order, TimeOnwards(x));
  }
}
