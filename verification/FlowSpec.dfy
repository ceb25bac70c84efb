/** The internal flow-control window of src/client.js, as functions: each takes
    the window and returns it with the sends that ran meanwhile and the backlog
    depths reported to the server. A send is named by its submission number. */
module FlowSpec {
  const LOW_WATER := 64
  const MAX_QUEUE := 256

  datatype Flow = Flow(active: bool, avail: int, expiresAt: int, queue: seq<nat>, degraded: bool,
                       replenishSent: bool, reported: nat)

  datatype Verdict = Sent | Queued | Dropped

  /** `told` holds the depth of each `request-n` frame sent. */
  datatype Turn = Turn(flow: Flow, ran: seq<nat>, told: seq<nat>)

  predicate Fresh(f: Flow, now: int) { f.avail > 0 && now < f.expiresAt }

  function MaybeReplenish(f: Flow, now: int, open: bool): Turn
  {
    if !f.active || f.replenishSent then Turn(f, [], [])
    else if |f.queue| > 0 || !Fresh(f, now) || f.avail <= LOW_WATER then
      if open then Turn(f.(replenishSent := true, reported := |f.queue|), [], [|f.queue|])
      else Turn(f.(replenishSent := true), [], [])
    else Turn(f, [], [])
  }

  function ReportDeeper(f: Flow, open: bool): Turn
  {
    var depth := |f.queue|;
    if depth == 0 || (f.reported != 0 && depth < f.reported * 2) then Turn(f, [], [])
    else Turn(f.(reported := depth), [], if open then [depth] else [])
  }

  function VerdictOf(f: Flow, now: int): Verdict
  {
    if !f.active || Fresh(f, now) then Sent
    else if |f.queue| < MAX_QUEUE then Queued
    else Dropped
  }

  function Submit(f: Flow, send: nat, now: int, open: bool): Turn
  {
    match VerdictOf(f, now)
    case Sent =>
      if !f.active then Turn(f, [send], [])
      else
        var asked := MaybeReplenish(f.(avail := f.avail - 1), now, open);
        Turn(asked.flow, [send], asked.told)
    case Queued =>
      var asked := MaybeReplenish(f.(queue := f.queue + [send], degraded := true), now, open);
      var deeper := ReportDeeper(asked.flow, open);
      Turn(deeper.flow, [], asked.told + deeper.told)
    case Dropped => Turn(f.(degraded := true), [], [])
  }

  /** Send the queue, oldest first, while permits last. */
  function Drain(f: Flow): Turn
    decreases |f.queue|
  {
    if f.avail <= 0 || f.queue == [] then Turn(f, [], [])
    else
      var rest := Drain(f.(queue := f.queue[1..], avail := f.avail - 1));
      Turn(rest.flow, [f.queue[0]] + rest.ran, [])
  }

  function ApplyWindow(f: Flow, count: int, ttlMs: int, now: int): Turn
  {
    var drained := Drain(f.(active := true, expiresAt := now + ttlMs, avail := count, replenishSent := false));
    Turn(drained.flow.(degraded := drained.flow.queue != [] && drained.flow.degraded), drained.ran, [])
  }
}
