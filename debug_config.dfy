// BluStream's switch for debugging file output: whether frame dumps and
// similar disk writes are allowed (read once from BLUSTREAM_DEBUG_IO, and
// settable later), two counters of the writes it blocked and permitted, and
// the statistics report over them.

module DebugIo {
  import opened Wrappers

  /** size_t on the 64-bit targets the server is built for. */
  const SizeModulus: nat := 0x1_0000_0000_0000_0000

  type size = x: int | 0 <= x < SizeModulus

  /** fetch_add(1) on a size_t counter: wraps to 0 past the largest value. */
  function Increment(n: size): (r: size)
    ensures n < SizeModulus - 1 ==> r == n + 1
    ensures n == SizeModulus - 1 ==> r == 0
  {
    (n + 1) % SizeModulus
  }

  /** The environment variable turns debugging output on only when set to exactly "1", "true" or "TRUE". */
  predicate EnvEnables(env: Option<string>)
  {
    env.Some? && (env.value == "1" || env.value == "true" || env.value == "TRUE")
  }

  /**
   * The constructor's decision, including the branch a DEBUG build
   * compiles in, which sets the flag to false when the variable is unset.
   */
  function InitialEnabled(env: Option<string>, debugBuild: bool): bool
  {
    var enabled := env.Some? && (env.value == "1" || env.value == "true" || env.value == "TRUE");
    if debugBuild && env.None? then false else enabled
  }

  /** A DEBUG build decides as any other: only the variable's value matters. */
  lemma DebugBuildAlike(env: Option<string>, debugBuild: bool)
    ensures InitialEnabled(env, debugBuild) == InitialEnabled(env, false) == EnvEnables(env)
    ensures env.None? ==> !InitialEnabled(env, debugBuild)
    ensures !InitialEnabled(Some("yes"), debugBuild) && !InitialEnabled(Some("True"), debugBuild)
  {
  }

  /** What the switch writes to standard output. */
  datatype Notice =
    | EnabledByEnvironment                        // the constructor found the variable set
    | EnabledBySetter                             // set_debug_io_enabled(true)
    | Statistics(blocked: size, permitted: size, total: size, reductionPercent: real)

  /** print_debug_stats: nothing when the (size_t) total is 0, else the counts and the share blocked. */
  function StatsReport(blocked: size, permitted: size): (r: Option<Notice>)
    ensures r.None? <==> (blocked + permitted) % SizeModulus == 0
    ensures r.Some? ==> r.value.Statistics? && r.value.blocked == blocked && r.value.permitted == permitted
  {
    var total: size := (blocked + permitted) % SizeModulus;
    if total > 0 then Some(Statistics(blocked, permitted, total, blocked as real * 100.0 / total as real)) else None
  }

  /**
   * Without wrap-around the report appears once anything was counted, its
   * total is the sum, and the share blocked lies between 0 and 100 percent.
   */
  lemma StatsReportBounds(blocked: size, permitted: size)
    requires blocked + permitted < SizeModulus
    ensures StatsReport(blocked, permitted).Some? <==> blocked + permitted > 0
    ensures var r := StatsReport(blocked, permitted);
      r.Some? ==> r.value.total == blocked + permitted && 0.0 <= r.value.reductionPercent <= 100.0
    ensures permitted == 0 && blocked > 0 ==> StatsReport(blocked, permitted).value.reductionPercent == 100.0
    ensures blocked == 0 && permitted > 0 ==> StatsReport(blocked, permitted).value.reductionPercent == 0.0
  {
    if blocked + permitted > 0 {
      assert (blocked + permitted) % SizeModulus == blocked + permitted;
      ShareBounds(blocked as real, (blocked + permitted) as real);
    }
  }

  /** A part of a positive whole is between none and all of it, in percent. */
  lemma ShareBounds(part: real, whole: real)
    requires 0.0 <= part <= whole && whole > 0.0
    ensures 0.0 <= part * 100.0 / whole <= 100.0
    ensures part == whole ==> part * 100.0 / whole == 100.0
  {
    var share := part * 100.0 / whole;
    assert share * whole == part * 100.0;
    assert (100.0 - share) * whole == (whole - part) * 100.0;
  }

  /** DebugConfig: the flag, the two counters, and the notices written so far. */
  class DebugConfig {
    var enabled: bool
    var blocked: size
    var permitted: size
    var notices: seq<Notice>

    /** The private constructor: `env` is BLUSTREAM_DEBUG_IO (None when unset), `debugBuild` whether DEBUG is defined. */
    constructor(env: Option<string>, debugBuild: bool)
      ensures enabled == EnvEnables(env) && blocked == 0 && permitted == 0
      ensures notices == if enabled then [EnabledByEnvironment] else []
    {
      var on := InitialEnabled(env, debugBuild);
      DebugBuildAlike(env, debugBuild);
      enabled := on;
      blocked := 0;
      permitted := 0;
      notices := if on then [EnabledByEnvironment] else [];
    }

    function IsDebugIoEnabled(): (b: bool)
      reads this`enabled
      ensures b == enabled
    {
      enabled
    }

    /** Turning the flag on (even when it already was) warns; turning it off is silent. */
    method SetDebugIoEnabled(on: bool)
      modifies this`enabled, this`notices
      ensures enabled == on
      ensures notices == old(notices) + (if on then [EnabledBySetter] else [])
    {
      enabled := on;
      if on {
        notices := notices + [EnabledBySetter];
      }
    }

    method IncrementBlocked()
      modifies this`blocked
      ensures blocked == Increment(old(blocked))
    {
      blocked := Increment(blocked);
    }

    method IncrementPermitted()
      modifies this`permitted
      ensures permitted == Increment(old(permitted))
    {
      permitted := Increment(permitted);
    }

    method PrintDebugStats()
      modifies this`notices
      ensures var r := StatsReport(blocked, permitted);
        notices == old(notices) + (if r.Some? then [r.value] else [])
    {
      var r := StatsReport(blocked, permitted);
      if r.Some? {
        notices := notices + [r.value];
      }
    }
  }

  /** The function-local static behind instance(): built on the first call, from the environment as it is then. */
  class DebugConfigInstance {
    var created: DebugConfig?

    constructor()
      ensures created == null
    {
      created := null;
    }

    method Instance(env: Option<string>, debugBuild: bool) returns (d: DebugConfig)
      modifies this`created
      ensures created == d
      ensures old(created) != null ==> d == old(created)
      ensures old(created) == null ==> fresh(d) && d.enabled == EnvEnables(env) && d.blocked == 0 && d.permitted == 0
    {
      if created == null {
        created := new DebugConfig(env, debugBuild);
      }
      d := created;
    }
  }

  /** The macros a guarded write site reports through. */
  datatype Outcome = Block | Permit

  function Count(events: seq<Outcome>, which: Outcome): nat
  {
    if events == [] then 0
    else Count(events[..|events| - 1], which) + (if events[|events| - 1] == which then 1 else 0)
  }

  /** The counters after reporting `events` one by one, from the given start. */
  function Replay(blocked: size, permitted: size, events: seq<Outcome>): (size, size)
  {
    if events == [] then (blocked, permitted)
    else
      var (b, p) := Replay(blocked, permitted, events[..|events| - 1]);
      if events[|events| - 1] == Block then (Increment(b), p) else (b, Increment(p))
  }

  /** Starting from zero, each counter holds how many of the events were its kind, modulo 2^64. */
  lemma {:induction false} ReplayCounts(events: seq<Outcome>)
    ensures Replay(0, 0, events) == (Count(events, Block) % SizeModulus, Count(events, Permit) % SizeModulus)
  {
    if events != [] {
      var init := events[..|events| - 1];
      ReplayCounts(init);
      var b := Count(init, Block);
      var p := Count(init, Permit);
      if events[|events| - 1] == Block {
        assert Increment(b % SizeModulus) == (b + 1) % SizeModulus;
      } else {
        assert Increment(p % SizeModulus) == (p + 1) % SizeModulus;
      }
    }
  }

  /** Every event is counted once: the two counts add up to the number of events. */
  lemma {:induction false} CountsPartition(events: seq<Outcome>)
    ensures Count(events, Block) + Count(events, Permit) == |events|
  {
    if events != [] {
      CountsPartition(events[..|events| - 1]);
    }
  }

  /** The reporting methods replay the events: a block increments only `blocked`, a permit only `permitted`. */
  method Report(d: DebugConfig, e: Outcome)
    modifies d`blocked, d`permitted
    ensures (d.blocked, d.permitted) == Replay(old(d.blocked), old(d.permitted), [e])
  {
    if e == Block {
      d.IncrementBlocked();
    } else {
      d.IncrementPermitted();
    }
  }
}
