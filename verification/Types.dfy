/** The shared vocabulary: events, sessions, off-hours windows, rows and the pipeline state.
    Integers are unbounded and `real` stands for float64. */
module Types {

  datatype Event = Event(id: string, ts: int, kind: string, owner: string, repo: string, sha: string,
                         title: string, additions: int, deletions: int, branch: string)

  datatype Session = Session(owner: string, repo: string, start: int, end: int,
                             durationSeconds: int, eventCount: nat)

  /** Minutes of the day; an end not after the start wraps past midnight. */
  datatype OffWindow = OffWindow(startMinute: int, endMinute: int)

  predicate ValidWindow(w: OffWindow) {
    0 <= w.startMinute < 1440 && 0 <= w.endMinute < 1440
  }

  const SECONDS_PER_MINUTE := 60
  const SECONDS_PER_DAY := 86400

  function Min(a: int, b: int): int { if a < b then a else b }

  function Max(a: int, b: int): int { if a > b then a else b }

  /** The UTC day of a timestamp; the floor division covers times before 1970. */
  function DayOf(ts: int): (day: int)
    ensures day * SECONDS_PER_DAY <= ts < (day + 1) * SECONDS_PER_DAY
  {
    ts / SECONDS_PER_DAY
  }

  /** The timestamps of a day. */
  lemma DayIs(ts: int, d: int)
    ensures DayOf(ts) == d <==> d * 86400 <= ts < (d + 1) * 86400
  {
  }

  /** A row's key: a text taken from an event or a template, or a UTC day. A day string is an
      injective and order-preserving image of its day number. */
  datatype Key = Text(text: string) | Day(number: int)

  datatype Row = Row(key: Key, values: map<string, real>, labels: map<string, string>)

  /** What a pipeline's steps share and update in place. */
  class State {
    var timeline: seq<Event>
    var sessions: seq<Session>
    var rows: seq<Row>

    constructor (timeline: seq<Event>)
      ensures this.timeline == timeline && sessions == [] && rows == []
    {
      this.timeline, sessions, rows := timeline, [], [];
    }
  }
}
