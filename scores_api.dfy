/** The games the scores endpoint of the odds service returns, as far as the
    two results scripts read them. A key the JSON object may lack, or hold
    `null` in, is a `Field`; the request itself is a parameter of the
    scripts' models. */
module ScoresApi {
  import opened Wrappers

  /** A key of a JSON object: missing from the object, present with the
      value `null`, or present with a value. `obj[key]` raises a `KeyError`
      only in the first case; `obj.get(key)` gives `None` in the first two
      and the value in the third. */
  datatype Field<T> = Absent | Null | Present(value: T)

  /** What Python holds after reading a field that is there: the value, or
      `None` for `null`. */
  function Value<T>(f: Field<T>): (r: Option<T>)
    ensures r.Some? <==> f.Present?
    ensures r.Some? ==> r.value == f.value
  {
    if f.Present? then Some(f.value) else None
  }

  /** An entry of a game's `scores` list: `name` is the team, `score` its
      points as text. */
  datatype ApiScore = ApiScore(name: Field<string>, score: Field<string>)

  /** A game: `completed` is false when the key is missing or `null`,
      `scores` is `None` when the key is missing or `null` (both read as an
      empty list); `status` may be missing or `null`. */
  datatype ApiGame = ApiGame(id: string, sportTitle: string, commenceTime: string,
                             home: string, away: string, completed: bool,
                             status: Field<string>, scores: Option<seq<ApiScore>>)

  /** The request for one sport key: the games, or `None` when the request
      failed. */
  type Fetch = string -> Option<seq<ApiGame>>

  /** A score entry naming the home team. */
  function HomeEntry(g: ApiGame): ApiScore -> bool {
    (s: ApiScore) => s.name == Present(g.home)
  }

  /** A score entry the `elif` branch takes: it names the away team and not
      the home team. */
  function AwayEntry(g: ApiGame): ApiScore -> bool {
    (s: ApiScore) => s.name == Present(g.away) && s.name != Present(g.home)
  }
}
