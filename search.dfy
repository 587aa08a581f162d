/**
 * The search of src/main.rs:150-295. Workers share a found flag, an
 * attempt total and a one-entry result slot (`SearchState`); each worker
 * (`RunWorker`, the closure at lines 192-265) draws secrets, derives and
 * cases the address, tests it, and counts unmatched attempts locally,
 * adding them to the total in batches of `step`. The random source is the
 * sequence of secrets a worker draws; workers run one after another.
 */
module Search {
  import opened Wrappers
  import opened Strings
  import opened Bytes
  import opened Eip55
  import opened Address
  import opened Matcher
  import opened Settings

  /** `VanityResult`. */
  datatype VanityResult = VanityResult(address: string, privKey: string, attempts: nat)

  /** A snapshot of the shared state. */
  datatype Progress = Progress(found: bool, totalAttempts: nat, result: Option<VanityResult>)

  /** The state shared between workers: `found`, `total_attempts["attempts"]`, `result_map["result"]`. */
  class SearchState {
    var found: bool
    var totalAttempts: nat
    var result: Option<VanityResult>

    constructor ()
      ensures !found && totalAttempts == 0 && result == None
    {
      found := false;
      totalAttempts := 0;
      result := None;
    }

    function Snapshot(): Progress
      reads this
    {
      Progress(found, totalAttempts, result)
    }
  }

  /** What every worker reads. */
  datatype WorkerConfig = WorkerConfig(criteria: Criteria, useChecksum: bool, step: nat, maxTries: nat)

  function WorkerConfigOf(s: Settings): WorkerConfig {
    WorkerConfig(s.criteria, s.useChecksum, s.step, s.maxTries)
  }

  function Min(a: nat, b: nat): nat { if a <= b then a else b }

  /** The 40 characters a candidate is tested on: the raw address, cased when checksums are on. */
  function FinalAddress(crypto: Crypto, useChecksum: bool, secret: seq<byte>): (a: string)
    ensures |a| == 40
  {
    var raw := RawAddress(crypto, secret);
    if useChecksum then Checksum(raw, crypto.keccak256(Utf8(raw))) else raw
  }

  /** Casing changes only letters: the tested text lower-cases to the raw address and holds as many '0's. */
  lemma FinalAddressShape(crypto: Crypto, useChecksum: bool, secret: seq<byte>)
    ensures Lower(FinalAddress(crypto, useChecksum, secret)) == RawAddress(crypto, secret)
    ensures Count(FinalAddress(crypto, useChecksum, secret), '0') == Count(RawAddress(crypto, secret), '0')
  {
    var raw := RawAddress(crypto, secret);
    RawAddressIsLowerHex(crypto, secret);
    if useChecksum {
      ChecksumLowersBack(raw, crypto.keccak256(Utf8(raw)));
      ChecksumKeepsZeros(raw, crypto.keccak256(Utf8(raw)));
    } else {
      assert Lower(raw) == raw;
    }
  }

  predicate IsHit(cfg: WorkerConfig, crypto: Crypto, isMatch: (string, string) -> bool, secret: seq<byte>) {
    Matches(cfg.criteria, isMatch, FinalAddress(crypto, cfg.useChecksum, secret))
  }

  /** The result a worker stores when `secret` matches, with the intended key text. */
  function Winner(cfg: WorkerConfig, crypto: Crypto, secret: seq<byte>, attempts: nat): VanityResult {
    VanityResult("0x" + FinalAddress(crypto, cfg.useChecksum, secret), PrivateKeyHex(secret), attempts)
  }

  /** A stored result is "0x" and 40 characters that meet the criteria, and it verifies against its key. */
  lemma WinnerIsSound(cfg: WorkerConfig, crypto: Crypto, isMatch: (string, string) -> bool, secret: seq<byte>, attempts: nat)
    requires ValidSecret(secret) && IsHit(cfg, crypto, isMatch, secret)
    ensures var r := Winner(cfg, crypto, secret, attempts);
      && |r.address| == 42 && r.address[..2] == "0x"
      && Matches(cfg.criteria, isMatch, r.address[2..])
      && VerifyAddress(crypto, r.address, r.privKey)
  {
    var f := FinalAddress(crypto, cfg.useChecksum, secret);
    FinalAddressShape(crypto, cfg.useChecksum, secret);
    assert ("0x" + f)[2..] == f;
    IntendedKeyVerifies(crypto, secret, f);
  }

  /** The batch actually used: a `step` of 0 flushes after every attempt. */
  function BatchSize(step: nat): (b: nat)
    ensures b >= 1
  {
    if step == 0 then 1 else step
  }

  /** Attempts added to the shared total after `n` unmatched iterations: whole batches only. */
  function Flushed(n: nat, step: nat): (f: nat)
    ensures f <= n < f + BatchSize(step)
    decreases n
  {
    if n < BatchSize(step) then 0 else BatchSize(step) + Flushed(n - BatchSize(step), step)
  }

  /**
   * Unmatched iterations a worker makes before the ceiling stops it, when
   * it alone adds to a total that starts at `total`: none once the ceiling
   * is reached, otherwise one more batch and what the larger total permits.
   */
  function Budget(total: nat, maxTries: nat, step: nat): nat
    decreases maxTries - total
  {
    if total >= maxTries then 0 else BatchSize(step) + Budget(total + BatchSize(step), maxTries, step)
  }

  /**
   * One more unmatched iteration either completes a batch, which is then
   * flushed whole, or leaves the flushed count alone (the test at
   * src/main.rs:252 compares the local count with `step`).
   */
  lemma {:induction false} FlushStep(n: nat, step: nat)
    ensures n - Flushed(n, step) + 1 >= step ==> Flushed(n + 1, step) == n + 1
    ensures n - Flushed(n, step) + 1 < step ==> Flushed(n + 1, step) == Flushed(n, step)
  {
    var b := BatchSize(step);
    if n >= b {
      FlushStep(n - b, step);
      assert Flushed(n + 1, step) == b + Flushed(n + 1 - b, step);
    }
  }

  /** The ceiling test at the top of the loop passes after `n` unmatched iterations exactly when `n` is below the budget. */
  lemma {:induction false} BudgetGate(total: nat, maxTries: nat, step: nat, n: nat)
    ensures total + Flushed(n, step) < maxTries <==> n < Budget(total, maxTries, step)
    decreases n
  {
    var b := BatchSize(step);
    if n >= b && total < maxTries {
      BudgetGate(total + b, maxTries, step, n - b);
    }
  }

  /**
   * From a total `total` below the ceiling, the budget is whole batches,
   * reaches the ceiling, and falls short of it by less than a batch once its
   * last batch is removed: the least such number.
   */
  lemma {:induction false} BudgetIsLeastBatches(total: nat, maxTries: nat, step: nat)
    requires total < maxTries
    ensures Flushed(Budget(total, maxTries, step), step) == Budget(total, maxTries, step)
    ensures total + Budget(total, maxTries, step) >= maxTries
    ensures total + Budget(total, maxTries, step) < maxTries + BatchSize(step)
    decreases maxTries - total
  {
    var b := BatchSize(step);
    if total + b < maxTries {
      BudgetIsLeastBatches(total + b, maxTries, step);
    }
  }

  /** The result a worker stores for a matching secret and the attempt count it records. */
  function StoreOf(cfg: WorkerConfig, crypto: Crypto): (store: (seq<byte>, nat) -> VanityResult)
  {
    (secret: seq<byte>, attempts: nat) => Winner(cfg, crypto, secret, attempts)
  }

  /** The hit test a worker applies to each drawn secret. */
  function HitTest(cfg: WorkerConfig, crypto: Crypto, isMatch: (string, string) -> bool): (hit: seq<byte> -> bool)
  {
    secret => IsHit(cfg, crypto, isMatch, secret)
  }

  /** The first index below `n` whose draw passes `hit`. */
  function FirstHit(hit: seq<byte> -> bool, draws: seq<seq<byte>>, n: nat): (r: Option<nat>)
    requires n <= |draws|
    ensures r.Some? ==> r.value < n && hit(draws[r.value])
    ensures r.Some? ==> forall k :: 0 <= k < r.value ==> !hit(draws[k])
    ensures r.None? ==> forall k :: 0 <= k < n ==> !hit(draws[k])
  {
    if n == 0 then None
    else match FirstHit(hit, draws, n - 1)
      case Some(k) => Some(k)
      case None => if hit(draws[n - 1]) then Some(n - 1) else None
  }

  /** With no hit below `i` and none at `i`, there is none below `i + 1`. */
  lemma FirstHitGrows(hit: seq<byte> -> bool, draws: seq<seq<byte>>, i: nat)
    requires i < |draws| && FirstHit(hit, draws, i) == None && !hit(draws[i])
    ensures FirstHit(hit, draws, i + 1) == None
  {
  }

  /** A first hit is determined by its position: the hit at `k`, with none before, is the first below any larger bound. */
  lemma {:induction false} FirstHitAt(hit: seq<byte> -> bool, draws: seq<seq<byte>>, n: nat, k: nat)
    requires k < n <= |draws|
    requires hit(draws[k])
    requires forall j :: 0 <= j < k ==> !hit(draws[j])
    ensures FirstHit(hit, draws, n) == Some(k)
  {
    if n - 1 > k {
      FirstHitAt(hit, draws, n - 1, k);
    } else {
      assert FirstHit(hit, draws, n - 1).None?;
    }
  }

  /**
   * What one worker with hit test `hit` does to the shared state when it
   * runs alone from `p`: nothing once a result is stored; otherwise it tests
   * draws until the first hit or until its budget or its draws run out. On a
   * hit it stores the winner, recording the total as it stood at the last
   * flush, and the total then gains every attempt it made, the hit excluded.
   */
  function WorkerRun(cfg: WorkerConfig, hit: seq<byte> -> bool, store: (seq<byte>, nat) -> VanityResult, draws: seq<seq<byte>>, p: Progress): Progress {
    if p.found then p
    else
      var n := Min(Budget(p.totalAttempts, cfg.maxTries, cfg.step), |draws|);
      match FirstHit(hit, draws, n)
      case Some(k) =>
        Progress(true, p.totalAttempts + k, Some(store(draws[k], p.totalAttempts + Flushed(k, cfg.step))))
      case None =>
        Progress(false, p.totalAttempts + n, p.result)
  }

  /** A worker whose first hit within its budget and draws is at `k` stores that winner and has made `k` attempts. */
  lemma WorkerRunOnHit(cfg: WorkerConfig, hit: seq<byte> -> bool, store: (seq<byte>, nat) -> VanityResult, draws: seq<seq<byte>>, p: Progress, k: nat)
    requires !p.found
    requires FirstHit(hit, draws, Min(Budget(p.totalAttempts, cfg.maxTries, cfg.step), |draws|)) == Some(k)
    ensures WorkerRun(cfg, hit, store, draws, p) ==
      Progress(true, p.totalAttempts + k, Some(store(draws[k], p.totalAttempts + Flushed(k, cfg.step))))
  {
  }

  /** A worker that meets its first hit at `i`, within its budget and draws, stores that winner and has made `i` attempts. */
  lemma WorkerHitEnd(cfg: WorkerConfig, hit: seq<byte> -> bool, store: (seq<byte>, nat) -> VanityResult, draws: seq<seq<byte>>, p: Progress, i: nat)
    requires !p.found
    requires i < |draws| && i < Budget(p.totalAttempts, cfg.maxTries, cfg.step)
    requires hit(draws[i]) && FirstHit(hit, draws, i) == None
    ensures WorkerRun(cfg, hit, store, draws, p) ==
      Progress(true, p.totalAttempts + i, Some(store(draws[i], p.totalAttempts + Flushed(i, cfg.step))))
  {
    FirstHitAt(hit, draws, Min(Budget(p.totalAttempts, cfg.maxTries, cfg.step), |draws|), i);
    WorkerRunOnHit(cfg, hit, store, draws, p, i);
  }

  /** A worker that stops without a hit after `i` draws, its draws or its budget spent, has added exactly `i` attempts. */
  lemma WorkerMissEnd(cfg: WorkerConfig, hit: seq<byte> -> bool, store: (seq<byte>, nat) -> VanityResult, draws: seq<seq<byte>>, p: Progress, i: nat)
    requires !p.found
    requires i <= |draws| && i <= Budget(p.totalAttempts, cfg.maxTries, cfg.step)
    requires i == |draws| || i == Budget(p.totalAttempts, cfg.maxTries, cfg.step)
    requires FirstHit(hit, draws, i) == None
    ensures WorkerRun(cfg, hit, store, draws, p) == Progress(false, p.totalAttempts + i, p.result)
  {
  }

  /**
   * The state a worker leaves, given how its loop ended: untouched when a
   * result was already stored, the winner at `i` after a hit, or `i` more
   * attempts after its draws or its budget ran out.
   */
  lemma WorkerEnd(cfg: WorkerConfig, hit: seq<byte> -> bool, store: (seq<byte>, nat) -> VanityResult, draws: seq<seq<byte>>, p: Progress, i: nat, hitNow: bool,
                  found: bool, total: nat, result: Option<VanityResult>)
    requires i <= |draws| && i <= Budget(p.totalAttempts, cfg.maxTries, cfg.step)
    requires FirstHit(hit, draws, i) == None
    requires found == (p.found || hitNow)
    requires p.found ==> !hitNow && total == p.totalAttempts
    requires !p.found ==> total == p.totalAttempts + i
    requires !hitNow ==> result == p.result
    requires hitNow ==> i < |draws| && i < Budget(p.totalAttempts, cfg.maxTries, cfg.step) && hit(draws[i])
    requires hitNow ==> result == Some(store(draws[i], p.totalAttempts + Flushed(i, cfg.step)))
    requires !p.found && !hitNow ==> i == |draws| || i == Budget(p.totalAttempts, cfg.maxTries, cfg.step)
    ensures Progress(found, total, result) == WorkerRun(cfg, hit, store, draws, p)
  {
    if !p.found && hitNow {
      WorkerHitEnd(cfg, hit, store, draws, p, i);
    } else if !p.found {
      WorkerMissEnd(cfg, hit, store, draws, p, i);
    }
  }

  /** Derivation and casing of one candidate (src/main.rs:206-223). */
  method DeriveCandidate(cfg: WorkerConfig, crypto: Crypto, secret: seq<byte>) returns (finalAddress: string)
    ensures finalAddress == FinalAddress(crypto, cfg.useChecksum, secret)
  {
    var address := RawAddress(crypto, secret);
    finalAddress := "";
    if cfg.useChecksum {
      finalAddress := ChecksumInto(address, crypto.keccak256, finalAddress);
    } else {
      finalAddress := finalAddress + address;
    }
  }

  /** One candidate: derived, cased, and tested against the criteria (src/main.rs:206-231). */
  method TestCandidate(cfg: WorkerConfig, crypto: Crypto, isMatch: (string, string) -> bool, secret: seq<byte>)
    returns (finalAddress: string, matched: bool)
    ensures finalAddress == FinalAddress(crypto, cfg.useChecksum, secret)
    ensures matched == IsHit(cfg, crypto, isMatch, secret)
  {
    finalAddress := DeriveCandidate(cfg, crypto, secret);
    matched := Matches(cfg.criteria, isMatch, finalAddress);
  }

  /**
   * One iteration of the worker loop (src/main.rs:198-258) after `n` unmatched
   * ones, `localAttempts` of them not yet flushed: derive and test a
   * candidate; a hit stores its result, with the total as it stands, and
   * raises the found flag; a miss is counted, and a full batch is flushed.
   */
  method Attempt(state: SearchState, cfg: WorkerConfig, crypto: Crypto, isMatch: (string, string) -> bool,
                 secret: seq<byte>, localAttempts: nat, ghost t0: nat, ghost n: nat)
    returns (matched: bool, newLocal: nat)
    modifies state
    requires localAttempts == n - Flushed(n, cfg.step)
    requires state.totalAttempts == t0 + Flushed(n, cfg.step)
    ensures matched == IsHit(cfg, crypto, isMatch, secret)
    ensures matched ==> state.found && state.totalAttempts == old(state.totalAttempts) && newLocal == localAttempts
    ensures matched ==> state.result == Some(Winner(cfg, crypto, secret, old(state.totalAttempts)))
    ensures !matched ==> state.found == old(state.found) && state.result == old(state.result)
    ensures !matched ==> newLocal == n + 1 - Flushed(n + 1, cfg.step)
    ensures !matched ==> state.totalAttempts == t0 + Flushed(n + 1, cfg.step)
  {
    var finalAddress;
    finalAddress, matched := TestCandidate(cfg, crypto, isMatch, secret);
    newLocal := localAttempts;
    if matched {
      var privKeyHex := PrivateKeyHex(secret);
      state.result := Some(VanityResult("0x" + finalAddress, privKeyHex, state.totalAttempts));
      state.found := true;
      return;
    }
    FlushStep(n, cfg.step);
    newLocal := newLocal + 1;
    if newLocal >= cfg.step {
      state.totalAttempts := state.totalAttempts + newLocal;
      newLocal := 0;
    }
  }

  /** Every worker's draws are valid. */
  ghost predicate AllDrawsValid(draws: nat -> seq<seq<byte>>) {
    forall w: nat, k :: 0 <= k < |draws(w)| ==> ValidSecret(draws(w)[k])
  }

  /**
   * The loop of the worker closure (src/main.rs:197-260): draws are tested
   * until a result is stored or the ceiling or the draws are reached; a hit
   * stores its result and stops, a miss is counted locally and flushed to
   * the total in whole batches. Returns the number of misses and the count
   * not yet flushed; `hitNow` says whether this loop stored a result.
   */
  method ScanDraws(state: SearchState, cfg: WorkerConfig, crypto: Crypto, isMatch: (string, string) -> bool, draws: seq<seq<byte>>)
    returns (i: nat, localAttempts: nat, ghost hitNow: bool)
    modifies state
    ensures i <= |draws| && i <= Budget(old(state.totalAttempts), cfg.maxTries, cfg.step)
    ensures localAttempts == i - Flushed(i, cfg.step)
    ensures state.totalAttempts == old(state.totalAttempts) + Flushed(i, cfg.step)
    ensures FirstHit(HitTest(cfg, crypto, isMatch), draws, i) == None
    ensures state.found == (old(state.found) || hitNow)
    ensures old(state.found) ==> i == 0 && !hitNow
    ensures !hitNow ==> state.result == old(state.result)
    ensures !hitNow && !old(state.found) ==> i == |draws| || old(state.totalAttempts) + Flushed(i, cfg.step) >= cfg.maxTries
    ensures hitNow ==> i < |draws| && i < Budget(old(state.totalAttempts), cfg.maxTries, cfg.step)
    ensures hitNow ==> IsHit(cfg, crypto, isMatch, draws[i])
    ensures hitNow ==> state.result == Some(Winner(cfg, crypto, draws[i], old(state.totalAttempts) + Flushed(i, cfg.step)))
  {
    ghost var t0 := state.totalAttempts;
    ghost var budget := Budget(t0, cfg.maxTries, cfg.step);
    ghost var hit := HitTest(cfg, crypto, isMatch);
    hitNow := false;
    localAttempts := 0;
    i := 0;
    while !state.found && state.totalAttempts < cfg.maxTries && i < |draws|
      invariant i <= |draws| && i <= budget
      invariant localAttempts == i - Flushed(i, cfg.step)
      invariant state.totalAttempts == t0 + Flushed(i, cfg.step)
      invariant FirstHit(hit, draws, i) == None
      invariant !hitNow && state.found == old(state.found) && state.result == old(state.result)
      invariant old(state.found) ==> i == 0
      decreases |draws| - i
    {
      BudgetGate(t0, cfg.maxTries, cfg.step, i);
      var secret := draws[i];
      var matched;
      matched, localAttempts := Attempt(state, cfg, crypto, isMatch, secret, localAttempts, t0, i);
      if matched {
        hitNow := true;
        break;
      }
      assert !hit(secret);
      FirstHitGrows(hit, draws, i);
      i := i + 1;
    }
  }

  /** The worker closure of src/main.rs:192-265: the loop, then the final flush of the local count. */
  method RunWorker(state: SearchState, cfg: WorkerConfig, crypto: Crypto, isMatch: (string, string) -> bool, draws: seq<seq<byte>>)
    modifies state
    ensures state.Snapshot() == WorkerRun(cfg, HitTest(cfg, crypto, isMatch), StoreOf(cfg, crypto), draws, old(state.Snapshot()))
  {
    ghost var p := state.Snapshot();
    var i, localAttempts, hitNow := ScanDraws(state, cfg, crypto, isMatch, draws);
    if localAttempts > 0 {
      state.totalAttempts := state.totalAttempts + localAttempts;
    }
    assert state.totalAttempts == (if p.found then p.totalAttempts else p.totalAttempts + i);
    if !hitNow && !p.found {
      BudgetGate(p.totalAttempts, cfg.maxTries, cfg.step, i);
    }
    WorkerEnd(cfg, HitTest(cfg, crypto, isMatch), StoreOf(cfg, crypto), draws, p, i, hitNow, state.found, state.totalAttempts, state.result);
  }

  /** The shared state after the first `w` workers of the pool have run, one after another, from a fresh state. */
  function PoolRun(cfg: WorkerConfig, hit: seq<byte> -> bool, store: (seq<byte>, nat) -> VanityResult, draws: nat -> seq<seq<byte>>, w: nat): Progress {
    if w == 0 then Progress(false, 0, None)
    else WorkerRun(cfg, hit, store, draws(w - 1), PoolRun(cfg, hit, store, draws, w - 1))
  }

  /** What a stored result promises: "0x" and 40 characters that meet the criteria and verify against the key. */
  predicate SoundResult(cfg: WorkerConfig, crypto: Crypto, isMatch: (string, string) -> bool, r: VanityResult) {
    && |r.address| == 42 && r.address[..2] == "0x"
    && Matches(cfg.criteria, isMatch, r.address[2..])
    && VerifyAddress(crypto, r.address, r.privKey)
  }

  /**
   * What the shared state promises between workers: found and a stored
   * result go together, the stored result is sound and its attempt count
   * never exceeds the total, and the total overshoots the ceiling by less
   * than one batch.
   */
  predicate Consistent(cfg: WorkerConfig, crypto: Crypto, isMatch: (string, string) -> bool, p: Progress) {
    && (p.found <==> p.result.Some?)
    && (p.result.Some? ==> SoundResult(cfg, crypto, isMatch, p.result.value) && p.result.value.attempts <= p.totalAttempts)
    && p.totalAttempts < cfg.maxTries + BatchSize(cfg.step)
  }

  /** A worker drawing valid secrets keeps the shared state consistent. */
  lemma WorkerKeepsConsistent(cfg: WorkerConfig, crypto: Crypto, isMatch: (string, string) -> bool, d: seq<seq<byte>>, p: Progress)
    requires forall k :: 0 <= k < |d| ==> ValidSecret(d[k])
    requires Consistent(cfg, crypto, isMatch, p)
    ensures Consistent(cfg, crypto, isMatch, WorkerRun(cfg, HitTest(cfg, crypto, isMatch), StoreOf(cfg, crypto), d, p))
  {
    if !p.found {
      var hit := HitTest(cfg, crypto, isMatch);
      var b := Budget(p.totalAttempts, cfg.maxTries, cfg.step);
      if p.totalAttempts < cfg.maxTries {
        BudgetIsLeastBatches(p.totalAttempts, cfg.maxTries, cfg.step);
      }
      var first := FirstHit(hit, d, Min(b, |d|));
      if first.Some? {
        WinnerIsSound(cfg, crypto, isMatch, d[first.value], p.totalAttempts + Flushed(first.value, cfg.step));
      }
    }
  }

  /** Every state the pool passes through is consistent. */
  lemma {:induction false} PoolSound(cfg: WorkerConfig, crypto: Crypto, isMatch: (string, string) -> bool, draws: nat -> seq<seq<byte>>, w: nat)
    requires AllDrawsValid(draws)
    ensures Consistent(cfg, crypto, isMatch, PoolRun(cfg, HitTest(cfg, crypto, isMatch), StoreOf(cfg, crypto), draws, w))
  {
    if w > 0 {
      PoolSound(cfg, crypto, isMatch, draws, w - 1);
      WorkerKeepsConsistent(cfg, crypto, isMatch, draws(w - 1), PoolRun(cfg, HitTest(cfg, crypto, isMatch), StoreOf(cfg, crypto), draws, w - 1));
    }
  }

  /** With a ceiling of 0 no worker tests anything. */
  lemma {:induction false} PoolZeroCeiling(cfg: WorkerConfig, hit: seq<byte> -> bool, store: (seq<byte>, nat) -> VanityResult, draws: nat -> seq<seq<byte>>, w: nat)
    requires cfg.maxTries == 0
    ensures PoolRun(cfg, hit, store, draws, w) == Progress(false, 0, None)
  {
    if w > 0 {
      PoolZeroCeiling(cfg, hit, store, draws, w - 1);
    }
  }

  /** When the very first draw hits, it is the result, with 0 attempts recorded and 0 in the total. */
  lemma {:induction false} PoolFirstDraw(cfg: WorkerConfig, hit: seq<byte> -> bool, store: (seq<byte>, nat) -> VanityResult, draws: nat -> seq<seq<byte>>, w: nat)
    requires w >= 1 && cfg.maxTries > 0 && |draws(0)| > 0 && hit(draws(0)[0])
    ensures PoolRun(cfg, hit, store, draws, w) == Progress(true, 0, Some(store(draws(0)[0], 0)))
  {
    if w == 1 {
      BudgetIsLeastBatches(0, cfg.maxTries, cfg.step);
      WorkerHitEnd(cfg, hit, store, draws(0), Progress(false, 0, None), 0);
    } else {
      PoolFirstDraw(cfg, hit, store, draws, w - 1);
    }
  }

  /**
   * A search that ends without a result, when the first worker had draws
   * enough, has counted exactly the budget: the ceiling rounded up to whole
   * batches; later workers find the ceiling reached and test nothing.
   */
  lemma {:induction false} PoolExhausted(cfg: WorkerConfig, hit: seq<byte> -> bool, store: (seq<byte>, nat) -> VanityResult, draws: nat -> seq<seq<byte>>, w: nat)
    requires w >= 1 && |draws(0)| >= Budget(0, cfg.maxTries, cfg.step)
    requires !PoolRun(cfg, hit, store, draws, w).found
    ensures PoolRun(cfg, hit, store, draws, w).totalAttempts == Budget(0, cfg.maxTries, cfg.step)
  {
    if w > 1 {
      var p := PoolRun(cfg, hit, store, draws, w - 1);
      assert !p.found;
      PoolExhausted(cfg, hit, store, draws, w - 1);
      if cfg.maxTries > 0 {
        BudgetIsLeastBatches(0, cfg.maxTries, cfg.step);
      }
      assert Budget(p.totalAttempts, cfg.maxTries, cfg.step) == 0;
    }
  }

  /** How a search ends: the result with its verification, or the ceiling; both with the final total. */
  datatype Outcome =
    | Found(result: VanityResult, verified: bool, totalAttempts: nat)
    | Exhausted(totalAttempts: nat)

  /**
   * The search and its report (src/main.rs:150-295): a pool of workers run
   * one after another over a fresh shared state, then the stored result, if
   * any, is verified. Worker `w` draws the secrets `draws(w)`.
   */
  method Search(settings: Settings, crypto: Crypto, isMatch: (string, string) -> bool, cpus: nat, draws: nat -> seq<seq<byte>>)
    returns (outcome: Outcome)
    requires AllDrawsValid(draws)
    ensures outcome.Found? ==>
      && outcome.verified
      && SoundResult(WorkerConfigOf(settings), crypto, isMatch, outcome.result)
      && outcome.result.attempts <= outcome.totalAttempts
    ensures outcome.totalAttempts < settings.maxTries + BatchSize(settings.step)
    ensures settings.maxTries == 0 ==> outcome == Exhausted(0)
    ensures (PoolSize(settings, cpus) > 0 && settings.maxTries > 0 && |draws(0)| > 0
      && IsHit(WorkerConfigOf(settings), crypto, isMatch, draws(0)[0])) ==>
      outcome == Found(Winner(WorkerConfigOf(settings), crypto, draws(0)[0], 0), true, 0)
    ensures (PoolSize(settings, cpus) > 0 && |draws(0)| >= Budget(0, settings.maxTries, settings.step)
      && outcome.Exhausted?) ==>
      outcome.totalAttempts == Budget(0, settings.maxTries, settings.step)
  {
    var cfg := WorkerConfigOf(settings);
    var pool := PoolSize(settings, cpus);
    var state := new SearchState();
    ghost var hit := HitTest(cfg, crypto, isMatch);
    ghost var store := StoreOf(cfg, crypto);
    var w := 0;
    while w < pool
      invariant 0 <= w <= pool
      invariant state.Snapshot() == PoolRun(cfg, hit, store, draws, w)
    {
      RunWorker(state, cfg, crypto, isMatch, draws(w));
      w := w + 1;
    }
    PoolSound(cfg, crypto, isMatch, draws, pool);
    if settings.maxTries == 0 {
      PoolZeroCeiling(cfg, hit, store, draws, pool);
    }
    if pool > 0 && settings.maxTries > 0 && |draws(0)| > 0 && IsHit(cfg, crypto, isMatch, draws(0)[0]) {
      PoolFirstDraw(cfg, hit, store, draws, pool);
    }
    if pool > 0 && |draws(0)| >= Budget(0, settings.maxTries, settings.step) && !state.found {
      PoolExhausted(cfg, hit, store, draws, pool);
    }
    if state.result.Some? {
      var r := state.result.value;
      outcome := Found(r, VerifyAddress(crypto, r.address, r.privKey), state.totalAttempts);
    } else {
      outcome := Exhausted(state.totalAttempts);
    }
  }
}
