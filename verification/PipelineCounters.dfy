/** The pipeline's counters over whole runs: what each of them has counted. */
module PipelineCounters {
  import opened TradingPipeline
  import opened PipelineRuns
  import opened PipelineLedger

  /** A tick gets a call of its own: a publisher is free to hand it over. */
  ghost predicate Admits(cfg: Config, s: System, e: Event) {
    e.Arrive? && e.id !in s.calls && |s.calls| < cfg.lanes
  }

  /** An exception leaves agents, guards or sizer. */
  ghost predicate Fails(s: System, e: Event) {
    e.Fail? && e.id in s.calls && !s.calls[e.id].stage.AtBroker? && !s.calls[e.id].stage.Auditing?
  }

  /** The audit channel refuses the result of a call. */
  ghost predicate FailsToAudit(s: System, e: Event) {
    e.Publish? && !e.ok && e.id in s.calls && s.calls[e.id].stage.Auditing?
  }

  /** How many ticks, failures and refused results a run has had. */
  datatype Tally = Tally(ticks: nat, errors: nat, unaudited: nat)

  ghost function Counted(cfg: Config, events: seq<Event>): Tally
    requires cfg.Valid()
  {
    if events == [] then Tally(0, 0, 0)
    else
      var n := |events| - 1;
      var t, s, e := Counted(cfg, events[..n]), Run(cfg, events[..n]), events[n];
      Tally(t.ticks + (if Admits(cfg, s, e) then 1 else 0),
            t.errors + (if Fails(s, e) then 1 else 0),
            t.unaudited + (if FailsToAudit(s, e) then 1 else 0))
  }

  ghost function Counters(desk: Desk): Tally {
    Tally(desk.tickCount, desk.errorCount, desk.auditFailures)
  }

  lemma StepCountsTicks(cfg: Config, s: System, e: Event)
    requires cfg.Valid()
    ensures var t, one := Apply(cfg, s, e), if Admits(cfg, s, e) then 1 else 0;
            t.desk.tickCount == s.desk.tickCount + one && |t.arrivals| == |s.arrivals| + one
  {
  }

  lemma StepCountsErrors(cfg: Config, s: System, e: Event)
    requires cfg.Valid() && CallsOk(cfg, s)
    ensures Apply(cfg, s, e).desk.errorCount == s.desk.errorCount + if Fails(s, e) then 1 else 0
  {
    if !e.Fail? { StepCountsNoError(cfg, s, e); }
  }

  lemma StepCountsAudits(cfg: Config, s: System, e: Event)
    requires cfg.Valid()
    ensures Apply(cfg, s, e).desk.auditFailures == s.desk.auditFailures + if FailsToAudit(s, e) then 1 else 0
  {
  }

  /** In every run each counter is the number of steps it is there to count: one tick for each
      call that was opened, one error for each exception, one audit failure for each refused
      result; and one execution for each fill in the portfolio. */
  lemma {:induction false} CountersCount(cfg: Config, events: seq<Event>)
    requires cfg.Valid()
    ensures Counters(Run(cfg, events).desk) == Counted(cfg, events)
    ensures |Run(cfg, events).arrivals| == Counted(cfg, events).ticks
    ensures Run(cfg, events).desk.executedCount == |Run(cfg, events).fills|
  {
    RecordingNeverRaises(cfg, events);
    if events != [] {
      var n := |events| - 1;
      CountersCount(cfg, events[..n]);
      RunOk(cfg, events[..n]);
      StepCountsTicks(cfg, Run(cfg, events[..n]), events[n]);
      StepCountsErrors(cfg, Run(cfg, events[..n]), events[n]);
      StepCountsAudits(cfg, Run(cfg, events[..n]), events[n]);
    }
  }
}
