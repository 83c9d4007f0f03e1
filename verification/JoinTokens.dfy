// Join tokens. The in-memory store expires a token when it is looked at; the SQLite
// store leaves that to sweeps and to `consume`. Callers cannot tell the two apart.
module JoinTokens {
  import opened Basics

  type Time = int // microseconds on the UTC clock

  datatype TokenStatus = Pending | Used | Expired | Revoked

  datatype TokenRow = TokenRow(
    trustLevel: string, labels: seq<string>, expiresAt: Time, status: TokenStatus, createdAt: Time,
    usedAt: Option<Time>, fingerprint: Option<string>)

  type Table = map<string, TokenRow>

  const VALID_TRUST_LEVELS := {"A", "B", "C"}

  predicate Lapsed(t: TokenRow, now: Time) {
    t.status.Pending? && now > t.expiresAt
  }

  /** The token as a reader at `now` should see it. */
  function Seen(t: TokenRow, now: Time): TokenRow {
    if Lapsed(t, now) then t.(status := Expired) else t
  }

  function NewToken(trustLevel: string, labels: seq<string>, ttl: int, now: Time): TokenRow {
    TokenRow(trustLevel, labels, now + ttl, Pending, now, None, None)
  }

  function MarkUsed(t: TokenRow, fingerprint: string, now: Time): TokenRow {
    t.(status := Used, usedAt := Some(now), fingerprint := Some(fingerprint))
  }

  // ----- The two stores, step by step -----

  /** `value` is random, so new. Revoking is what `hmn token revoke` does. */
  datatype Op =
    | Create(value: string, trustLevel: string, labels: seq<string>, ttl: int, now: Time)
    | Get(value: string, now: Time)
    | Consume(value: string, fingerprint: string, now: Time)
    | Sweep(now: Time)
    | Revoke(value: string, now: Time)

  type Outcome = (Table, Option<TokenRow>)

  function Created(ts: Table, value: string, trustLevel: string, labels: seq<string>, ttl: int, now: Time): Outcome {
    if trustLevel !in VALID_TRUST_LEVELS then (ts, None)
    else (ts[value := NewToken(trustLevel, labels, ttl, now)], Some(NewToken(trustLevel, labels, ttl, now)))
  }

  function RevokedIn(ts: Table, value: string): Outcome {
    if value !in ts then (ts, None)
    else (ts[value := ts[value].(status := Revoked)], Some(ts[value].(status := Revoked)))
  }

  /** JoinTokenStore.get: a lapsed token expires as it is read. */
  function LazyGet(ts: Table, value: string, now: Time): Outcome {
    if value !in ts then (ts, None) else (ts[value := Seen(ts[value], now)], Some(Seen(ts[value], now)))
  }

  function LazyConsume(ts: Table, value: string, fingerprint: string, now: Time): Outcome {
    var (ts', got) := LazyGet(ts, value, now);
    if got.None? || !got.value.status.Pending? then (ts', None)
    else (ts'[value := MarkUsed(got.value, fingerprint, now)], Some(MarkUsed(got.value, fingerprint, now)))
  }

  function LazyStep(ts: Table, op: Op): Outcome {
    match op
    case Create(value, trustLevel, labels, ttl, now) => Created(ts, value, trustLevel, labels, ttl, now)
    case Get(value, now) => LazyGet(ts, value, now)
    case Consume(value, fingerprint, now) => LazyConsume(ts, value, fingerprint, now)
    case Sweep(now) => (ts, None)
    case Revoke(value, _) => RevokedIn(ts, value)
  }

  /** SQLiteStore.consume_token. */
  function SavedConsume(ts: Table, value: string, fingerprint: string, now: Time): Outcome {
    if value !in ts then (ts, None)
    else if ts[value].status.Pending? && now > ts[value].expiresAt then
      (ts[value := ts[value].(status := Expired)], None)
    else if !ts[value].status.Pending? then (ts, None)
    else (ts[value := MarkUsed(ts[value], fingerprint, now)], Some(MarkUsed(ts[value], fingerprint, now)))
  }

  /** SQLiteStore.expire_pending_tokens. */
  function Swept(ts: Table, now: Time): Table {
    map value | value in ts :: Seen(ts[value], now)
  }

  function SavedStep(ts: Table, op: Op): Outcome {
    match op
    case Create(value, trustLevel, labels, ttl, now) => Created(ts, value, trustLevel, labels, ttl, now)
    case Get(value, now) => (ts, if value in ts then Some(ts[value]) else None)
    case Consume(value, fingerprint, now) => SavedConsume(ts, value, fingerprint, now)
    case Sweep(now) => (Swept(ts, now), None)
    case Revoke(value, _) => RevokedIn(ts, value)
  }

  // ----- Runs -----

  function LazyRun(ops: seq<Op>): Table {
    if ops == [] then map[] else LazyStep(LazyRun(ops[..|ops| - 1]), ops[|ops| - 1]).0
  }

  function SavedRun(ops: seq<Op>): Table {
    if ops == [] then map[] else SavedStep(SavedRun(ops[..|ops| - 1]), ops[|ops| - 1]).0
  }

  /** Clocks do not run backwards, and token values are not drawn twice. */
  predicate ValidRun(ops: seq<Op>) {
    && (forall i, j | 0 <= i < j < |ops| :: ops[i].now <= ops[j].now)
    && (forall i, j | 0 <= i < j < |ops| :: ops[i].Create? && ops[j].Create? ==> ops[i].value != ops[j].value)
  }

  /** What the i-th call of a run returns. */
  function LazyResult(ops: seq<Op>, i: nat): Option<TokenRow>
    requires i < |ops|
  {
    LazyStep(LazyRun(ops[..i]), ops[i]).1
  }

  function SavedResult(ops: seq<Op>, i: nat): Option<TokenRow>
    requires i < |ops|
  {
    SavedStep(SavedRun(ops[..i]), ops[i]).1
  }

  // ----- Refinement -----

  /** From `now` on, the two tables look the same. */
  ghost predicate LookAlike(l: Table, e: Table, now: Time) {
    l.Keys == e.Keys && forall value | value in l :: Seen(l[value], now) == Seen(e[value], now)
  }

  lemma LookAlikeLater(l: Table, e: Table, now: Time, later: Time)
    requires LookAlike(l, e, now) && now <= later
    ensures LookAlike(l, e, later)
  {
    forall value | value in l ensures Seen(l[value], later) == Seen(e[value], later) {
      assert Seen(Seen(l[value], now), later) == Seen(l[value], later);
      assert Seen(Seen(e[value], now), later) == Seen(e[value], later);
    }
  }

  lemma StepsAgree(l: Table, e: Table, op: Op)
    requires LookAlike(l, e, op.now)
    ensures LookAlike(LazyStep(l, op).0, SavedStep(e, op).0, op.now)
    ensures op.Consume? ==> LazyStep(l, op).1 == SavedStep(e, op).1
    ensures op.Get? && op.value in e ==> LazyStep(l, op).1 == Some(Seen(e[op.value], op.now))
  {
    if !op.Sweep? && op.value in l {
      assert Seen(l[op.value], op.now) == Seen(e[op.value], op.now);
    }
  }

  lemma {:induction false} RunsLookAlike(ops: seq<Op>, now: Time)
    requires ValidRun(ops) && forall i | 0 <= i < |ops| :: ops[i].now <= now
    ensures LookAlike(LazyRun(ops), SavedRun(ops), now)
  {
    if ops != [] {
      var init, op := ops[..|ops| - 1], ops[|ops| - 1];
      RunsLookAlike(init, op.now);
      StepsAgree(LazyRun(init), SavedRun(init), op);
      LookAlikeLater(LazyRun(ops), SavedRun(ops), op.now, now);
    }
  }

  /** Every `consume` of every run gives the same answer in both stores. */
  lemma ConsumeAgrees(ops: seq<Op>, i: nat)
    requires ValidRun(ops) && i < |ops| && ops[i].Consume?
    ensures LazyResult(ops, i) == SavedResult(ops, i)
  {
    RunsLookAlike(ops[..i], ops[i].now);
    StepsAgree(LazyRun(ops[..i]), SavedRun(ops[..i]), ops[i]);
  }

  // ----- A token is spent once, in time, and for one node -----

  /** Spent for good: used, and out of reach of every later `consume`. */
  ghost predicate Spent(ts: Table, value: string, used: TokenRow) {
    value in ts && ts[value].(status := Used) == used && !ts[value].status.Pending?
  }

  lemma {:induction false} SpentStays(ops: seq<Op>, i: nat, value: string, used: TokenRow)
    requires ValidRun(ops) && i <= |ops|
    requires Spent(SavedRun(ops[..i]), value, used)
    requires forall k | i <= k < |ops| :: ops[k].Create? ==> ops[k].value != value
    ensures Spent(SavedRun(ops), value, used)
    decreases |ops|
  {
    if i == |ops| {
      assert ops[..i] == ops;
    } else {
      assert ops[..|ops| - 1][..i] == ops[..i];
      SpentStays(ops[..|ops| - 1], i, value, used);
    }
  }

  /** A token that exists was drawn before. */
  lemma {:induction false} KnownWasCreated(ops: seq<Op>, value: string)
    requires value in SavedRun(ops)
    ensures exists k | 0 <= k < |ops| :: ops[k].Create? && ops[k].value == value
  {
    var init, op := ops[..|ops| - 1], ops[|ops| - 1];
    if value in SavedRun(init) {
      KnownWasCreated(init, value);
      var k :| 0 <= k < |init| && init[k].Create? && init[k].value == value;
      assert ops[k] == init[k];
    } else {
      assert op.Create? && op.value == value;
    }
  }

  lemma ConsumeSpends(ops: seq<Op>, i: nat)
    requires ValidRun(ops) && i < |ops| && ops[i].Consume? && SavedResult(ops, i).Some?
    ensures Spent(SavedRun(ops[..i + 1]), ops[i].value, SavedResult(ops, i).value)
    ensures forall k | i < k < |ops| :: ops[k].Create? ==> ops[k].value != ops[i].value
  {
    assert ops[..i + 1][..i] == ops[..i];
    KnownWasCreated(ops[..i], ops[i].value);
  }

  predicate Consumes(op: Op, value: string) {
    op.Consume? && op.value == value
  }

  lemma SpentIsRefused(ops: seq<Op>, i: nat, j: nat, value: string, used: TokenRow)
    requires ValidRun(ops) && i <= j < |ops| && Consumes(ops[j], value)
    requires Spent(SavedRun(ops[..i]), value, used)
    requires forall k | i <= k < |ops| :: ops[k].Create? ==> ops[k].value != value
    ensures SavedResult(ops, j).None?
  {
    assert ops[..j][..i] == ops[..i];
    SpentStays(ops[..j], i, value, used);
  }

  lemma ConsumedInTime(ops: seq<Op>, i: nat)
    requires i < |ops| && ops[i].Consume? && SavedResult(ops, i).Some?
    ensures ops[i].now <= SavedResult(ops, i).value.expiresAt
    ensures SavedResult(ops, i).value.fingerprint == Some(ops[i].fingerprint)
  {
  }

  /** No token is consumed twice, and none after it ran out; a consumed token names its
      node for good. By `ConsumeAgrees` the same holds of the in-memory store. */
  lemma ConsumedOnceInTime(ops: seq<Op>, i: nat)
    requires ValidRun(ops) && i < |ops| && ops[i].Consume? && SavedResult(ops, i).Some?
    ensures ops[i].now <= SavedResult(ops, i).value.expiresAt
    ensures SavedResult(ops, i).value.fingerprint == Some(ops[i].fingerprint)
    ensures Spent(SavedRun(ops), ops[i].value, SavedResult(ops, i).value)
    ensures forall j | i < j < |ops| && Consumes(ops[j], ops[i].value) :: SavedResult(ops, j).None?
  {
    ConsumedInTime(ops, i);
    var value, used := ops[i].value, SavedResult(ops, i).value;
    ConsumeSpends(ops, i);
    SpentStays(ops, i + 1, value, used);
    forall j | i < j < |ops| && Consumes(ops[j], value) ensures SavedResult(ops, j).None? {
      SpentIsRefused(ops, i + 1, j, value, used);
    }
  }

  /** A revoked token is never consumed. */
  lemma RevokedIsNeverConsumed(ops: seq<Op>, i: nat, j: nat)
    requires ValidRun(ops) && i < j < |ops| && ops[i].Revoke? && ops[i].value in SavedRun(ops[..i])
    requires Consumes(ops[j], ops[i].value)
    ensures SavedResult(ops, j).None?
  {
    KnownWasCreated(ops[..i], ops[i].value);
    assert ops[..i + 1][..i] == ops[..i];
    var row := SavedRun(ops[..i + 1])[ops[i].value];
    SpentIsRefused(ops, i + 1, j, ops[i].value, row.(status := Used));
  }

  // ----- What a call does, column by column -----

  /** A pending token that runs out `ttl` after now; nothing for any other trust level. */
  predicate TokenMade(ts: Table, ts': Table, made: Option<TokenRow>, value: string, trustLevel: string, labels: seq<string>,
                      ttl: int, now: Time)
  {
    if trustLevel == "A" || trustLevel == "B" || trustLevel == "C" then
      made == Some(TokenRow(trustLevel, labels, now + ttl, Pending, now, None, None)) && ts' == ts[value := made.value]
    else made == None && ts' == ts
  }

  function WithStatus(t: TokenRow, status: TokenStatus): TokenRow {
    TokenRow(t.trustLevel, t.labels, t.expiresAt, status, t.createdAt, t.usedAt, t.fingerprint)
  }

  /** The token as stored, but expired once a pending one has run out. */
  predicate TokenShown(ts: Table, ts': Table, shown: Option<TokenRow>, value: string, now: Time) {
    if value !in ts then shown == None && ts' == ts
    else
      && shown == Some(if ts[value].status == Pending && ts[value].expiresAt < now then WithStatus(ts[value], Expired) else ts[value])
      && ts' == ts[value := shown.value]
  }

  /** A pending token that has not run out is used, by this node and now; one that has run
      out expires; nothing else changes. */
  predicate TokenTaken(ts: Table, ts': Table, taken: Option<TokenRow>, value: string, fingerprint: string, now: Time) {
    if value in ts && ts[value].status == Pending then
      var t := ts[value];
      if now <= t.expiresAt then
        && taken == Some(TokenRow(t.trustLevel, t.labels, t.expiresAt, Used, t.createdAt, Some(now), Some(fingerprint)))
        && ts' == ts[value := taken.value]
      else taken == None && ts' == ts[value := WithStatus(t, Expired)]
    else taken == None && ts' == ts
  }

  /** Exactly the pending tokens that have run out have expired. */
  predicate TokensSwept(ts: Table, ts': Table, now: Time) {
    && ts'.Keys == ts.Keys
    && forall v | v in ts :: ts'[v] == if ts[v].status == Pending && ts[v].expiresAt < now then WithStatus(ts[v], Expired) else ts[v]
  }

  predicate TokenRevoked(ts: Table, ts': Table, value: string) {
    ts' == if value in ts then ts[value := WithStatus(ts[value], Revoked)] else ts
  }

  /** What each call does to the in-memory store. */
  lemma LazyEffect(ts: Table, op: Op)
    ensures var (ts', row) := LazyStep(ts, op);
            match op
            case Create(value, trustLevel, labels, ttl, now) => TokenMade(ts, ts', row, value, trustLevel, labels, ttl, now)
            case Get(value, now) => TokenShown(ts, ts', row, value, now)
            case Consume(value, fingerprint, now) => TokenTaken(ts, ts', row, value, fingerprint, now)
            case Sweep(_) => ts' == ts
            case Revoke(value, _) => TokenRevoked(ts, ts', value)
  {
    if op.Consume? && op.value in ts && !ts[op.value].status.Pending? {
      assert LazyGet(ts, op.value, op.now).0 == ts;
    }
  }

  /** And to the table. */
  lemma SavedEffect(ts: Table, op: Op)
    ensures var (ts', row) := SavedStep(ts, op);
            match op
            case Create(value, trustLevel, labels, ttl, now) => TokenMade(ts, ts', row, value, trustLevel, labels, ttl, now)
            case Get(value, now) => ts' == ts && row == if value in ts then Some(ts[value]) else None
            case Consume(value, fingerprint, now) => TokenTaken(ts, ts', row, value, fingerprint, now)
            case Sweep(now) => TokensSwept(ts, ts', now)
            case Revoke(value, _) => TokenRevoked(ts, ts', value)
  {
  }

  // ----- The stores as objects -----

  class JoinToken {
    const trustLevel: string
    const labels: seq<string>
    const expiresAt: Time
    const createdAt: Time
    var status: TokenStatus
    var usedAt: Option<Time>
    var fingerprint: Option<string>

    constructor (trustLevel: string, labels: seq<string>, expiresAt: Time, createdAt: Time)
      ensures Row() == TokenRow(trustLevel, labels, expiresAt, Pending, createdAt, None, None)
    {
      this.trustLevel, this.labels, this.expiresAt, this.createdAt := trustLevel, labels, expiresAt, createdAt;
      status, usedAt, fingerprint := Pending, None, None;
    }

    function Row(): TokenRow
      reads this
    {
      TokenRow(trustLevel, labels, expiresAt, status, createdAt, usedAt, fingerprint)
    }
  }

  class JoinTokenStore {
    var tokens: map<string, JoinToken>

    /** No two values share a token object. */
    ghost predicate Valid()
      reads this
    {
      forall v, w | v in tokens && w in tokens && v != w :: tokens[v] != tokens[w]
    }

    ghost function View(): Table
      reads this, tokens.Values
    {
      map v | v in tokens :: tokens[v].Row()
    }

    constructor ()
      ensures Valid() && View() == map[]
    {
      tokens := map[];
    }

    /** `value` is the random part; None where the code raises ValueError. */
    method Create(value: string, trustLevel: string, labels: seq<string>, ttl: int, now: Time) returns (token: JoinToken?)
      requires Valid() && value !in tokens
      modifies this
      ensures Valid()
      ensures var (table, row) := LazyStep(old(View()), Op.Create(value, trustLevel, labels, ttl, now));
              View() == table && row == (if token == null then None else Some(token.Row()))
      ensures TokenMade(old(View()), View(), if token == null then None else Some(token.Row()), value, trustLevel, labels, ttl, now)
    {
      LazyEffect(View(), Op.Create(value, trustLevel, labels, ttl, now));
      if trustLevel !in VALID_TRUST_LEVELS {
        return null;
      }
      token := new JoinToken(trustLevel, labels, now + ttl, now);
      tokens := tokens[value := token];
    }

    method Get(value: string, now: Time) returns (token: JoinToken?)
      requires Valid()
      modifies tokens.Values
      ensures Valid() && unchanged(this)
      ensures token == if value in tokens then tokens[value] else null
      ensures var (table, row) := LazyStep(old(View()), Op.Get(value, now));
              View() == table && row == (if token == null then None else Some(token.Row()))
      ensures TokenShown(old(View()), View(), if token == null then None else Some(token.Row()), value, now)
    {
      LazyEffect(View(), Op.Get(value, now));
      if value !in tokens {
        return null;
      }
      token := tokens[value];
      if token.status.Pending? && now > token.expiresAt {
        token.status := Expired;
      }
    }

    method Consume(value: string, fingerprint: string, now: Time) returns (token: JoinToken?)
      requires Valid()
      modifies tokens.Values
      ensures Valid() && unchanged(this)
      ensures var (table, row) := LazyStep(old(View()), Op.Consume(value, fingerprint, now));
              View() == table && row == (if token == null then None else Some(token.Row()))
      ensures TokenTaken(old(View()), View(), if token == null then None else Some(token.Row()), value, fingerprint, now)
    {
      LazyEffect(View(), Op.Consume(value, fingerprint, now));
      token := Get(value, now);
      if token == null || !token.status.Pending? {
        return null;
      }
      token.status := Used;
      token.usedAt := Some(now);
      token.fingerprint := Some(fingerprint);
    }
  }

  /** The `join_tokens` table of the SQLite store. */
  class TokenTable {
    var rows: Table

    constructor ()
      ensures rows == map[]
    {
      rows := map[];
    }

    method SaveToken(value: string, token: TokenRow)
      modifies this
      ensures rows == old(rows)[value := token]
    {
      rows := rows[value := token];
    }

    method LoadToken(value: string) returns (token: Option<TokenRow>)
      ensures token == if value in rows then Some(rows[value]) else None
    {
      token := if value in rows then Some(rows[value]) else None;
    }

    method ConsumeToken(value: string, fingerprint: string, now: Time) returns (token: Option<TokenRow>)
      modifies this
      ensures (rows, token) == SavedStep(old(rows), Op.Consume(value, fingerprint, now))
      ensures TokenTaken(old(rows), rows, token, value, fingerprint, now)
    {
      var loaded := LoadToken(value);
      if loaded.None? {
        return None;
      }
      var row := loaded.value;
      if row.status.Pending? && now > row.expiresAt {
        SaveToken(value, row.(status := Expired));
        return None;
      }
      if !row.status.Pending? {
        return None;
      }
      var used := row.(status := Used, usedAt := Some(now), fingerprint := Some(fingerprint));
      SaveToken(value, used);
      token := Some(used);
    }

    /** The expired values come back newest first. */
    method ExpirePendingTokens(now: Time) returns (values: seq<string>)
      modifies this
      ensures rows == SavedStep(old(rows), Op.Sweep(now)).0
      ensures TokensSwept(old(rows), rows, now)
      ensures forall v :: v in values <==> v in old(rows) && old(rows)[v].status == Pending && old(rows)[v].expiresAt < now
      ensures forall i, j | 0 <= i < j < |values| ::
                values[i] != values[j] && old(rows)[values[i]].createdAt >= old(rows)[values[j]].createdAt
    {
      ghost var before := rows;
      values := OrderBy(LapsedValues(rows, now), NewestFirst(rows));
      var i := 0;
      while i < |values|
        invariant 0 <= i <= |values|
        invariant rows == map v | v in before :: if v in values[..i] then before[v].(status := Expired) else before[v]
      {
        assert values[i] in values;
        rows := rows[values[i] := rows[values[i]].(status := Expired)];
        i := i + 1;
      }
      assert values[..i] == values;
      forall i, j | 0 <= i < j < |values|
        ensures values[i] in before && values[j] in before && before[values[i]].createdAt >= before[values[j]].createdAt
      {
        assert values[i] in values && values[j] in values;
        assert NewestFirst(before)(values[i], values[j]);
      }
    }

    method RevokeToken(value: string, now: Time) returns (ok: bool)
      modifies this
      ensures rows == SavedStep(old(rows), Op.Revoke(value, now)).0 && ok == (value in old(rows))
      ensures TokenRevoked(old(rows), rows, value)
    {
      var loaded := LoadToken(value);
      ok := loaded.Some?;
      if ok {
        SaveToken(value, loaded.value.(status := Revoked));
      }
    }
  }

  /** WHERE status = 'pending' AND expires_at < ? */
  function LapsedValues(rows: Table, now: Time): set<string> {
    set v | v in rows && Lapsed(rows[v], now)
  }

  /** ORDER BY created_at DESC. */
  function NewestFirst(rows: Table): (string, string) -> bool {
    (a: string, b: string) =>
      if a in rows && b in rows then rows[a].createdAt >= rows[b].createdAt else a in rows || b !in rows
  }
}
