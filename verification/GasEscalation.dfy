/** The submitter's outbox rows and the capped gas-price escalation that recovery applies to a stuck one. */
module GasEscalation {
  import opened Machine

  datatype SagaState = ReceivedFromExecutor | Compressed | SubmittedToL1 | ConfirmedOnL1 | Failed

  datatype SagaRecord = SagaRecord(
    state: SagaState, txHash: Option<string>, nonce: Option<int>, lastUpdated: int, originalGasPrice: Option<u256>)

  type Rows = map<string, SagaRecord>

  // ---------- one recovery decision ----------

  /** The last case is a panic: 256-bit arithmetic on the price overflowed. */
  datatype Decision = Resend(price: u256) | GiveUp | Overflow

  /** 20% up, capped at three times the original; give up once the cap was all but reached. */
  function Escalate(current: u256, original: Option<u256>): Decision {
    var bumped := current + current / 5;
    if bumped >= U256_LIMIT then Overflow
    else
      match original
      case None => Resend(bumped)
      case Some(orig) =>
        var ceiling := 3 * orig;
        if ceiling >= U256_LIMIT then Overflow
        else if bumped <= ceiling then Resend(bumped)
        else if ceiling * 99 >= U256_LIMIT then Overflow
        else if current >= ceiling * 99 / 100 then GiveUp
        else Resend(ceiling)
  }

  /** `update_state`; a missing row is left missing */
  function WithState(rows: Rows, id: string, state: SagaState, now: int): Rows {
    if id in rows then rows[id := rows[id].(state := state, lastUpdated := now)] else rows
  }

  /** `update_submission`; without a price the stored original is kept */
  function WithSubmission(rows: Rows, id: string, txHash: string, nonce: Option<int>, price: Option<u256>, now: int)
    : Rows
  {
    if id !in rows then rows
    else
      var row := rows[id].(state := SubmittedToL1, txHash := Some(txHash), nonce := nonce, lastUpdated := now);
      rows[id := if price.Some? then row.(originalGasPrice := price) else row]
  }

  /** What the chain answers for the row's transaction and for a resend. */
  datatype Chain = Chain(found: bool, price: Option<u256>, sent: Option<string>)

  /** The rows after one row's turn, the price that was broadcast, if any, and whether the turn panicked. */
  datatype Recovery = Recovery(rows: Rows, broadcast: Option<u256>, panicked: bool)

  predicate IsStuck(rows: Rows, id: string, chain: Chain, now: int) {
    && id in rows && rows[id].state == SubmittedToL1
    && now - rows[id].lastUpdated > 300_000
    && rows[id].txHash.Some? && chain.found
  }

  /** One row in one recovery pass. */
  function Recover(rows: Rows, id: string, chain: Chain, now: int): Recovery {
    if !IsStuck(rows, id, chain, now) then Recovery(rows, None, false)
    else
      var row := rows[id];
      match chain.price
      case None => Resent(rows, id, chain.sent, None, now)
      case Some(current) =>
        match Escalate(current, row.originalGasPrice)
        case Overflow => Recovery(rows, None, true)
        case GiveUp => Recovery(WithState(rows, id, Failed, now), None, false)
        case Resend(price) => Resent(rows, id, chain.sent, Some(price), now)
  }

  /** A resend at `price` that the chain takes or refuses. */
  function Resent(rows: Rows, id: string, sent: Option<string>, price: Option<u256>, now: int): Recovery
    requires id in rows
  {
    match sent
    case None => Recovery(rows, None, false)
    case Some(txHash) => Recovery(WithSubmission(rows, id, txHash, rows[id].nonce, None, now), price, false)
  }

  class SagaOutbox {
    var rows: Rows

    constructor ()
      ensures rows == map[]
    {
      rows := map[];
    }

    method UpdateState(id: string, state: SagaState, now: int)
      modifies this
      ensures rows == WithState(old(rows), id, state, now)
    {
      if id in rows {
        rows := rows[id := rows[id].(state := state, lastUpdated := now)];
      }
    }

    method UpdateSubmission(id: string, txHash: string, nonce: Option<int>, price: Option<u256>, now: int)
      modifies this
      ensures rows == WithSubmission(old(rows), id, txHash, nonce, price, now)
    {
      if id in rows {
        var row := rows[id].(state := SubmittedToL1, txHash := Some(txHash), nonce := nonce, lastUpdated := now);
        if price.Some? {
          row := row.(originalGasPrice := price);
        }
        rows := rows[id := row];
      }
    }

    /** The body of the recovery loop for one unconfirmed row. */
    method RecoverRow(id: string, chain: Chain, now: int) returns (broadcast: Option<u256>, panicked: bool)
      modifies this
      ensures Recovery(rows, broadcast, panicked) == Recover(old(rows), id, chain, now)
    {
      broadcast, panicked := None, false;
      if id !in rows || rows[id].state != SubmittedToL1 {
        return;
      }
      var record := rows[id];
      if now - record.lastUpdated <= 300_000 || record.txHash.None? || !chain.found {
        return;
      }
      var price := chain.price;
      if price.Some? {
        var current := price.value;
        var newPrice := current + current / 5;
        if newPrice >= U256_LIMIT {
          return None, true;
        }
        if record.originalGasPrice.Some? {
          var ceiling := record.originalGasPrice.value * 3;
          if ceiling >= U256_LIMIT {
            return None, true;
          }
          if newPrice > ceiling {
            newPrice := ceiling;
            if ceiling * 99 >= U256_LIMIT {
              return None, true;
            }
            if current >= ceiling * 99 / 100 {
              UpdateState(id, Failed, now);
              return;
            }
          }
        }
        price := Some(newPrice);
      }
      if chain.sent.Some? {
        UpdateSubmission(id, chain.sent.value, record.nonce, None, now);
        broadcast := price;
      }
    }
  }

  // ---------- the prices of one row ----------

  /** The price after so many broadcasts, each seeing the one before; none once no further one is sent. */
  function PriceAfter(original: u256, bumps: nat): Option<u256> {
    if bumps == 0 then Some(original)
    else
      match PriceAfter(original, bumps - 1)
      case None => None
      case Some(p) => match Escalate(p, Some(original)) case Resend(q) => Some(q) case _ => None
  }

  /** Every bump strictly raises the price within three times the original. */
  lemma {:induction false} BumpsRaiseWithinCap(original: u256, bumps: nat)
    requires original >= 5 && PriceAfter(original, bumps).Some?
    ensures original <= PriceAfter(original, bumps).value <= 3 * original
    ensures match Escalate(PriceAfter(original, bumps).value, Some(original))
            case Resend(q) => PriceAfter(original, bumps).value < q <= 3 * original
            case _ => true
  {
    if bumps > 0 {
      BumpsRaiseWithinCap(original, bumps - 1);
    }
  }

  lemma {:induction false} EndedForGood(original: u256, bumps: nat, later: nat)
    requires bumps <= later && PriceAfter(original, bumps).None?
    ensures PriceAfter(original, later).None?
    decreases later
  {
    if bumps < later {
      EndedForGood(original, bumps, later - 1);
    }
  }

  /** Compound growth without the cap. */
  function Compound(original: nat, bumps: nat): nat {
    if bumps == 0 then original
    else var p := Compound(original, bumps - 1); p + p / 5
  }

  lemma {:induction false} BelowCapCompounds(original: u256, bumps: nat)
    requires original >= 5 && PriceAfter(original, bumps).Some? && PriceAfter(original, bumps).value < 3 * original
    ensures PriceAfter(original, bumps).value == Compound(original, bumps)
  {
    if bumps > 0 {
      BumpsRaiseWithinCap(original, bumps - 1);
      BelowCapCompounds(original, bumps - 1);
    }
  }

  lemma CompoundStep(original: nat, bumps: nat)
    requires bumps > 0
    ensures 5 * Compound(original, bumps) >= 6 * Compound(original, bumps - 1) - 4
  {
  }

  /** Four bumps, each losing less than a wei to rounding. */
  lemma FourBumps(c0: nat, c1: nat, c2: nat, c3: nat, c4: nat)
    requires 5 * c1 >= 6 * c0 - 4 && 5 * c2 >= 6 * c1 - 4 && 5 * c3 >= 6 * c2 - 4 && 5 * c4 >= 6 * c3 - 4
    ensures 625 * (c4 - 4) >= 1296 * (c0 - 4)
    ensures c0 >= 5 ==> c4 >= 9
    ensures c0 >= 6 ==> c4 >= 10
    ensures c0 >= 7 ==> c4 >= 12
    ensures c0 >= 8 ==> c4 >= 14
    ensures c0 >= 9 ==> c4 >= 16
    ensures c0 >= 10 ==> c4 >= 19
    ensures c0 >= 12 ==> c4 >= 22
    ensures c0 >= 14 ==> c4 >= 26
    ensures c0 >= 16 ==> c4 >= 31
    ensures c0 >= 19 ==> c4 >= 37
  {
  }

  /** Eight uncapped bumps triple any price that a fifth does not round away. */
  lemma CompoundTriples(original: nat)
    requires original >= 5
    ensures Compound(original, 8) >= 3 * original
  {
    CompoundStep(original, 1);
    CompoundStep(original, 2);
    CompoundStep(original, 3);
    CompoundStep(original, 4);
    FourBumps(original, Compound(original, 1), Compound(original, 2), Compound(original, 3), Compound(original, 4));
    CompoundStep(original, 5);
    CompoundStep(original, 6);
    CompoundStep(original, 7);
    CompoundStep(original, 8);
    FourBumps(Compound(original, 4), Compound(original, 5), Compound(original, 6), Compound(original, 7),
              Compound(original, 8));
  }

  /** There is no ninth bump. */
  lemma NoNinthBump(original: u256)
    requires original >= 5
    ensures PriceAfter(original, 9).None?
  {
    if PriceAfter(original, 8).Some? {
      BumpsRaiseWithinCap(original, 8);
      if PriceAfter(original, 8).value < 3 * original {
        BelowCapCompounds(original, 8);
        CompoundTriples(original);
        assert false;
      }
    }
  }

  // ---------- any sequence of recovery passes over a row ----------

  /** A pass sees the last broadcast price, if the chain finds the transaction at all; the resend may fail. */
  datatype Pass = Pass(now: int, found: bool, sent: Option<string>)

  datatype Escalation = Escalation(rows: Rows, price: u256, bumps: nat)

  function OnePass(e: Escalation, id: string, pass: Pass): Escalation {
    var r := Recover(e.rows, id, Chain(pass.found, Some(e.price), pass.sent), pass.now);
    match r.broadcast
    case None => e.(rows := r.rows)
    case Some(q) => Escalation(r.rows, q, e.bumps + 1)
  }

  function Passes(rows: Rows, id: string, price: u256, passes: seq<Pass>): Escalation
    decreases |passes|
  {
    if passes == [] then Escalation(rows, price, 0)
    else OnePass(Passes(rows, id, price, passes[..|passes| - 1]), id, passes[|passes| - 1])
  }

  /** A row that was submitted at `original`. */
  ghost predicate SubmittedAt(rows: Rows, id: string, original: u256) {
    id in rows && rows[id].state == SubmittedToL1 && rows[id].originalGasPrice == Some(original)
  }

  /** The row carries its original price, and either its escalation so far or its failure. */
  ghost predicate Follows(rows: Rows, id: string, original: u256, e: Escalation) {
    && id in rows && e.rows.Keys == rows.Keys
    && (forall other :: other in rows && other != id ==> e.rows[other] == rows[other])
    && e.rows[id].originalGasPrice == Some(original)
    && PriceAfter(original, e.bumps) == Some(e.price)
    && (e.rows[id].state == SubmittedToL1
        || (e.rows[id].state == Failed && Escalate(e.price, Some(original)).GiveUp?))
  }

  lemma OnePassFollows(rows: Rows, id: string, original: u256, e: Escalation, pass: Pass)
    requires Follows(rows, id, original, e)
    ensures Follows(rows, id, original, OnePass(e, id, pass))
  {
  }

  /** After any passes the row follows its escalation, and no other row has changed. */
  lemma {:induction false} PassesFollowEscalation(rows: Rows, id: string, original: u256, passes: seq<Pass>)
    requires SubmittedAt(rows, id, original)
    ensures Follows(rows, id, original, Passes(rows, id, original, passes))
    decreases |passes|
  {
    if passes != [] {
      var n := |passes| - 1;
      PassesFollowEscalation(rows, id, original, passes[..n]);
      OnePassFollows(rows, id, original, Passes(rows, id, original, passes[..n]), passes[n]);
    }
  }

  /** From 5 wei up, however many passes run, at most eight bumps, within three times the original. */
  lemma AtMostEightBumps(rows: Rows, id: string, original: u256, passes: seq<Pass>)
    requires SubmittedAt(rows, id, original) && original >= 5
    ensures var e := Passes(rows, id, original, passes); e.bumps <= 8 && original <= e.price <= 3 * original
  {
    PassesFollowEscalation(rows, id, original, passes);
    var e := Passes(rows, id, original, passes);
    BumpsRaiseWithinCap(original, e.bumps);
    NoNinthBump(original);
    if e.bumps > 8 {
      EndedForGood(original, 9, e.bumps);
    }
  }

  // ---------- when a stuck row fails ----------

  /** Below 5 wei a fifth rounds to nothing; above the other bound 99 times the cap overflows. */
  predicate CanGiveUp(original: u256) {
    original >= 5 && 297 * original < U256_LIMIT
  }

  lemma NoRiseBelowFive(original: u256)
    requires original < 5
    ensures Escalate(original, Some(original)) == Resend(original)
  {
    assert original / 5 == 0;
  }

  lemma {:induction false} ConstantBelowFive(original: u256, bumps: nat)
    requires original < 5
    ensures PriceAfter(original, bumps) == Some(original)
  {
    if bumps > 0 {
      NoRiseBelowFive(original);
      ConstantBelowFive(original, bumps - 1);
    }
  }

  /** Whatever the passes, a row outside the bounds never fails: it is resent at one price or panics each time. */
  lemma FailsOnlyWithin(rows: Rows, id: string, original: u256, passes: seq<Pass>)
    requires SubmittedAt(rows, id, original) && !CanGiveUp(original)
    ensures id in Passes(rows, id, original, passes).rows
    ensures Passes(rows, id, original, passes).rows[id].state == SubmittedToL1
  {
    PassesFollowEscalation(rows, id, original, passes);
    if original < 5 {
      ConstantBelowFive(original, Passes(rows, id, original, passes).bumps);
    }
  }

  /** A pass that finds the transaction, more than five minutes after the last update, and whose resend is taken. */
  ghost predicate ActsAt(lastUpdated: int, passes: seq<Pass>, i: nat)
    requires i < |passes|
  {
    && passes[i].found && passes[i].sent.Some?
    && passes[i].now - (if i == 0 then lastUpdated else passes[i - 1].now) > 300_000
  }

  ghost predicate AllAct(lastUpdated: int, passes: seq<Pass>) {
    forall i :: 0 <= i < |passes| ==> ActsAt(lastUpdated, passes, i)
  }

  /** The row has failed, or every pass so far has bumped it and the last one did so at `lastUpdated`. */
  ghost predicate KeepsUp(id: string, e: Escalation, passes: nat, lastUpdated: int) {
    && id in e.rows
    && (e.rows[id].state == SubmittedToL1 ==>
          e.bumps == passes && e.rows[id].txHash.Some? && e.rows[id].lastUpdated == lastUpdated)
  }

  lemma ActingPassKeepsUp(rows: Rows, id: string, original: u256, e: Escalation, passes: nat, lastUpdated: int,
                          pass: Pass)
    requires CanGiveUp(original) && Follows(rows, id, original, e) && e.price <= 3 * original
    requires KeepsUp(id, e, passes, lastUpdated)
    requires pass.found && pass.sent.Some? && pass.now - lastUpdated > 300_000
    ensures KeepsUp(id, OnePass(e, id, pass), passes + 1, pass.now)
  {
  }

  lemma {:induction false} PassesKeepUp(rows: Rows, id: string, original: u256, passes: seq<Pass>)
    requires SubmittedAt(rows, id, original) && rows[id].txHash.Some? && CanGiveUp(original)
    requires AllAct(rows[id].lastUpdated, passes)
    ensures KeepsUp(id, Passes(rows, id, original, passes), |passes|,
                    if passes == [] then rows[id].lastUpdated else passes[|passes| - 1].now)
    decreases |passes|
  {
    if passes != [] {
      var n := |passes| - 1;
      forall i | 0 <= i < n ensures ActsAt(rows[id].lastUpdated, passes[..n], i) {
        assert ActsAt(rows[id].lastUpdated, passes, i);
      }
      PassesKeepUp(rows, id, original, passes[..n]);
      PassesFollowEscalation(rows, id, original, passes[..n]);
      AtMostEightBumps(rows, id, original, passes[..n]);
      assert ActsAt(rows[id].lastUpdated, passes, n);
      var last := if n == 0 then rows[id].lastUpdated else passes[n - 1].now;
      ActingPassKeepsUp(rows, id, original, Passes(rows, id, original, passes[..n]), n, last, passes[n]);
    }
  }

  /** Nine or more acting passes leave a stuck row failed exactly when its original price is within the bounds. */
  lemma GivesUpIff(rows: Rows, id: string, original: u256, passes: seq<Pass>)
    requires SubmittedAt(rows, id, original) && rows[id].txHash.Some?
    requires AllAct(rows[id].lastUpdated, passes) && |passes| >= 9
    ensures var e := Passes(rows, id, original, passes);
            && id in e.rows
            && (e.rows[id].state == Failed <==> 5 <= original && 297 * original < U256_LIMIT)
            && (e.rows[id].state != Failed ==> e.rows[id].state == SubmittedToL1)
  {
    PassesFollowEscalation(rows, id, original, passes);
    if CanGiveUp(original) {
      PassesKeepUp(rows, id, original, passes);
      AtMostEightBumps(rows, id, original, passes);
    } else {
      FailsOnlyWithin(rows, id, original, passes);
    }
  }
}
