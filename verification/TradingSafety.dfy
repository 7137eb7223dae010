/** System settings, per-user safety settings and the caps they give together (trading_safety.py). */
module TradingSafety {
  import opened Wrappers
  import opened Tables

  datatype BrokerMode = Paper | Creon | CreonGateway

  datatype Settings = Settings(
    mode: BrokerMode, autoExecute: bool, allowLive: bool, understandRisk: bool,
    maxOrder: nat, maxPosition: nat, minConfidence: Confidence)
  {
    predicate Live() {
      mode in {Creon, CreonGateway}
    }

    /** `live_trading_enabled`, the system gate. */
    predicate LiveEnabled() {
      Live() && allowLive && understandRisk
    }
  }

  function MaxReal(a: Confidence, b: Confidence): Confidence {
    if a >= b then a else b
  }

  function DefaultSafety(sys: Settings): SafetyRow {
    SafetyRow(sys.maxOrder, sys.maxPosition, sys.minConfidence, true, false)
  }

  /** The row that `get_or_create_user_trading_settings` returns. */
  function SafetyOf(sys: Settings, s: Store, user: nat): SafetyRow {
    if user in s.safety then s.safety[user] else DefaultSafety(sys)
  }

  /** The tables once that row exists. */
  function WithSafety(sys: Settings, s: Store, user: nat): Store {
    s.(safety := s.safety[user := SafetyOf(sys, s, user)])
  }

  predicate EffectiveLive(row: SafetyRow, sys: Settings) {
    sys.LiveEnabled() && row.liveOptIn
  }

  function EffectiveMaxOrder(row: SafetyRow, sys: Settings): nat {
    Min(row.maxOrder, sys.maxOrder)
  }

  function EffectiveMaxPosition(row: SafetyRow, sys: Settings, requested: Option<nat>): nat {
    var capped := Min(row.maxPosition, sys.maxPosition);
    if requested.Some? then Min(capped, requested.value) else capped
  }

  function EffectiveMinConfidence(row: SafetyRow, sys: Settings): Confidence {
    MaxReal(row.minConfidence, sys.minConfidence)
  }

  /** What `update_user_trading_settings` lets through. */
  predicate WithinSystemLimits(row: SafetyRow, sys: Settings) {
    && row.maxOrder <= sys.maxOrder
    && row.maxPosition <= sys.maxPosition
    && row.minConfidence >= sys.minConfidence
    && (row.liveOptIn ==> sys.LiveEnabled())
  }

  /** A row kept within the system limits is already the effective one. */
  lemma AcceptedRowsAreEffective(row: SafetyRow, sys: Settings)
    ensures WithinSystemLimits(row, sys) <==>
      && EffectiveMaxOrder(row, sys) == row.maxOrder
      && EffectiveMaxPosition(row, sys, None) == row.maxPosition
      && EffectiveMinConfidence(row, sys) == row.minConfidence
      && EffectiveLive(row, sys) == row.liveOptIn
  {
  }

  method GetOrCreate(db: Database, user: nat, sys: Settings) returns (row: SafetyRow)
    modifies db`safety
    ensures row == SafetyOf(sys, old(db.View()), user)
    ensures db.View() == WithSafety(sys, old(db.View()), user)
  {
    if user in db.safety {
      assert db.safety == db.safety[user := db.safety[user]];
      return db.safety[user];
    }
    row := DefaultSafety(sys);
    db.safety := db.safety[user := row];
  }

  /** The HTTP 400 answers become `ok == false`, and then nothing is assigned. */
  method Update(db: Database, user: nat, payload: SafetyRow, sys: Settings) returns (ok: bool)
    requires user in db.safety
    modifies db`safety
    ensures ok <==> WithinSystemLimits(payload, sys)
    ensures db.safety == if ok then old(db.safety)[user := payload] else old(db.safety)
  {
    if payload.maxOrder > sys.maxOrder {
      return false;
    }
    if payload.maxPosition > sys.maxPosition {
      return false;
    }
    if payload.minConfidence < sys.minConfidence {
      return false;
    }
    if payload.liveOptIn && !sys.LiveEnabled() {
      return false;
    }
    var row := db.safety[user];
    row := row.(maxOrder := payload.maxOrder, maxPosition := payload.maxPosition);
    row := row.(minConfidence := payload.minConfidence);
    row := row.(manualApproval := payload.manualApproval, liveOptIn := payload.liveOptIn);
    db.safety := db.safety[user := row];
    return true;
  }
}
