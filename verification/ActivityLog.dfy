/** The reputation registry's paged activity log (packages/reputation-registry/src/contract.rs): pages of
    fifty entries refine one flat log per user. */
module ActivityLog {
  import opened Common

  const PAGE_SIZE := 50

  datatype Activity = Activity(user: Address, kind: uint32, impact: uint32, timestamp: uint64)

  datatype RegistryError = InvalidActivityType | InvalidScoreImpact | Overflow

  datatype Score = Score(
    points: uint32,
    tier: uint32,
    totalCircles: uint32,
    completedCircles: uint32,
    defaultedCircles: uint32,
    streak: uint32,
    updatedAt: uint64)

  function TierOf(points: uint32): uint32 {
    if points >= 800 then 4 else if points >= 600 then 3 else if points >= 400 then 2 else if points >= 200 then 1 else 0
  }

  /** The score after one activity; the counters are checked, the points capped at a thousand. */
  function ScoreAfter(s: Score, kind: uint32, impact: uint32, now: uint64): Result<Score, RegistryError> {
    var points := Min(Min(s.points + impact, U32_MAX), 1000);
    var scored := s.(points := points, tier := TierOf(points), updatedAt := now);
    match kind
    case 0 => if s.totalCircles + 1 > U32_MAX then Err(Overflow) else Ok(scored.(totalCircles := s.totalCircles + 1))
    case 1 => if s.streak + 1 > U32_MAX then Err(Overflow) else Ok(scored.(streak := s.streak + 1))
    case 2 => if s.completedCircles + 1 > U32_MAX then Err(Overflow) else Ok(scored.(completedCircles := s.completedCircles + 1))
    case 3 =>
      if s.defaultedCircles + 1 > U32_MAX then Err(Overflow)
      else Ok(scored.(defaultedCircles := s.defaultedCircles + 1, streak := 0))
    case _ => Ok(scored)
  }

  /** The entries from `from` up to `to`, as far as the log has them. */
  function Clip<T>(log: seq<T>, from: nat, to: nat): seq<T>
    requires from <= to
  {
    log[Min(from, |log|)..Min(to, |log|)]
  }

  function PageOf<T>(log: seq<T>, i: nat): seq<T> {
    Clip(log, i * PAGE_SIZE, i * PAGE_SIZE + PAGE_SIZE)
  }

  /** An entry sits on the page and at the offset its index divides into. */
  lemma EntryOnPage<T>(log: seq<T>, k: nat)
    requires k < |log|
    ensures k % PAGE_SIZE < |PageOf(log, k / PAGE_SIZE)|
    ensures PageOf(log, k / PAGE_SIZE)[k % PAGE_SIZE] == log[k]
  {
    assert k == k / PAGE_SIZE * PAGE_SIZE + k % PAGE_SIZE;
  }

  /** Appending an entry appends to the page of the old length and leaves every other page alone. */
  lemma AppendTouchesOnePage<T>(log: seq<T>, x: T, i: nat)
    ensures PageOf(log + [x], i) == if i == |log| / PAGE_SIZE then PageOf(log, i) + [x] else PageOf(log, i)
  {
    var n := |log|;
    FloorBounds(n, PAGE_SIZE);
    var q := n / PAGE_SIZE;
    if i < q {
      assert i * PAGE_SIZE + PAGE_SIZE <= q * PAGE_SIZE;
    } else if i > q {
      assert i * PAGE_SIZE >= q * PAGE_SIZE + PAGE_SIZE;
    }
    assert (log + [x])[..n] == log;
  }

  /** The first `n` pages one after another. */
  function PagesUpTo<T>(log: seq<T>, n: nat): seq<T> {
    if n == 0 then [] else PagesUpTo(log, n - 1) + PageOf(log, n - 1)
  }

  /** The pages tile the log: nothing is lost, repeated or reordered across page boundaries. */
  lemma {:induction false} PagesTileLog<T>(log: seq<T>, n: nat)
    ensures PagesUpTo(log, n) == Clip(log, 0, n * PAGE_SIZE)
  {
    if n > 0 {
      PagesTileLog(log, n - 1);
    }
  }

  // ----- what a score says of the log -----

  /** The impacts of a log, added up. */
  function Impacts(log: seq<Activity>): nat {
    if log == [] then 0 else Impacts(log[..|log| - 1]) + log[|log| - 1].impact
  }

  function CountKind(log: seq<Activity>, kind: uint32): nat {
    if log == [] then 0 else CountKind(log[..|log| - 1], kind) + if log[|log| - 1].kind == kind then 1 else 0
  }

  /** Contributions since the last default. */
  function StreakOf(log: seq<Activity>): nat {
    if log == [] then 0
    else
      var earlier, kind := StreakOf(log[..|log| - 1]), log[|log| - 1].kind;
      if kind == 3 then 0 else if kind == 1 then earlier + 1 else earlier
  }

  /** The score is what the log has earned: all impacts up to a thousand points, the tier those points
      give, and the numbers of circles joined, completed and defaulted. */
  predicate Earned(s: Score, log: seq<Activity>) {
    && s.points == Min(Impacts(log), 1000) && s.tier == TierOf(s.points)
    && s.totalCircles == CountKind(log, 0) && s.completedCircles == CountKind(log, 2)
    && s.defaultedCircles == CountKind(log, 3) && s.streak == StreakOf(log)
  }

  /** Recording an activity keeps the score what the log has earned. */
  lemma ScoreStaysEarned(s: Score, log: seq<Activity>, entry: Activity)
    requires Earned(s, log) && ScoreAfter(s, entry.kind, entry.impact, entry.timestamp).Ok?
    ensures Earned(ScoreAfter(s, entry.kind, entry.impact, entry.timestamp).value, log + [entry])
  {
    assert (log + [entry])[..|log|] == log;
  }

  lemma ScoringOnlyOverflows(s: Score, kind: uint32, impact: uint32, now: uint64)
    ensures ScoreAfter(s, kind, impact, now).Err? ==> ScoreAfter(s, kind, impact, now).error == Overflow
  {
  }

  // ----- pages, counters and scores against the logs -----

  type Logs = map<Address, seq<Activity>>
  type Pages = map<(Address, uint32), seq<Activity>>

  function LogOf(logs: Logs, user: Address): seq<Activity> {
    if user in logs then logs[user] else []
  }

  function PageAt(pages: Pages, user: Address, i: uint32): seq<Activity> {
    if (user, i) in pages then pages[(user, i)] else []
  }

  function CountOf(counts: map<Address, uint32>, user: Address): uint32 {
    if user in counts then counts[user] else 0
  }

  function ScoreOf(scores: map<Address, Score>, user: Address, now: uint64): Score {
    if user in scores then scores[user] else Score(0, 0, 0, 0, 0, 0, now)
  }

  /** Each stored page is the page of the flat log, absent ones are empty, and the counter is its length. */
  ghost predicate Paged(counts: map<Address, uint32>, pages: Pages, logs: Logs) {
    && (forall user :: |LogOf(logs, user)| == CountOf(counts, user))
    && (forall user: Address, i: uint32 :: PageAt(pages, user, i) == PageOf(LogOf(logs, user), i))
  }

  ghost predicate Scored(scores: map<Address, Score>, logs: Logs) {
    forall user :: if user in scores then Earned(scores[user], LogOf(logs, user)) else LogOf(logs, user) == []
  }

  /** Pushing on the page that the old length falls on keeps every page right. */
  lemma PushKeepsPaged(counts: map<Address, uint32>, pages: Pages, logs: Logs, user: Address, index: uint32, entry: Activity)
    requires Paged(counts, pages, logs) && CountOf(counts, user) < U32_MAX && index == CountOf(counts, user) / PAGE_SIZE
    ensures Paged(counts[user := CountOf(counts, user) + 1], pages[(user, index) := PageAt(pages, user, index) + [entry]],
                  logs[user := LogOf(logs, user) + [entry]])
  {
    hide PageOf;
    var pages', logs' := pages[(user, index) := PageAt(pages, user, index) + [entry]], logs[user := LogOf(logs, user) + [entry]];
    forall u: Address, i: uint32
      ensures PageAt(pages', u, i) == PageOf(LogOf(logs', u), i)
    {
      assert PageAt(pages, u, i) == PageOf(LogOf(logs, u), i);
      if u == user {
        AppendTouchesOnePage(LogOf(logs, user), entry, i);
      }
    }
    forall u: Address
      ensures |LogOf(logs', u)| == CountOf(counts[user := CountOf(counts, user) + 1], u)
    {
      assert |LogOf(logs, u)| == CountOf(counts, u);
    }
  }

  /** Any logged entry is found at its offset on its stored page. */
  lemma EntryIsStored(counts: map<Address, uint32>, pages: Pages, logs: Logs, user: Address, k: nat)
    requires Paged(counts, pages, logs) && k < |LogOf(logs, user)|
    ensures (user, k / PAGE_SIZE) in pages && k % PAGE_SIZE < |pages[(user, k / PAGE_SIZE)]|
    ensures pages[(user, k / PAGE_SIZE)][k % PAGE_SIZE] == LogOf(logs, user)[k]
  {
    EntryOnPage(LogOf(logs, user), k);
    hide PageOf;
    assert |LogOf(logs, user)| == CountOf(counts, user);
    var i: uint32 := k / PAGE_SIZE;
    assert PageAt(pages, user, i) == PageOf(LogOf(logs, user), i);
  }

  lemma RecordKeepsScored(scores: map<Address, Score>, logs: Logs, user: Address, now: uint64, entry: Activity)
    requires Scored(scores, logs) && entry.timestamp == now
    requires ScoreAfter(ScoreOf(scores, user, now), entry.kind, entry.impact, now).Ok?
    ensures Scored(scores[user := ScoreAfter(ScoreOf(scores, user, now), entry.kind, entry.impact, now).value],
                   logs[user := LogOf(logs, user) + [entry]])
  {
    ScoreStaysEarned(ScoreOf(scores, user, now), LogOf(logs, user), entry);
    hide Earned, ScoreAfter;
  }

  class Registry {
    var counts: map<Address, uint32>
    var pages: Pages
    var scores: map<Address, Score>
    var now: uint64
    ghost var logs: Logs

    ghost function Log(user: Address): seq<Activity>
      reads this`logs
    {
      LogOf(logs, user)
    }

    ghost predicate Valid()
      reads this`counts, this`pages, this`scores, this`logs
    {
      Paged(counts, pages, logs) && Scored(scores, logs)
    }

    constructor (now: uint64)
      ensures Valid() && forall user :: Log(user) == []
    {
      counts, pages, scores, logs := map[], map[], map[], map[];
      this.now := now;
    }

    method Store(counted: map<Address, uint32>, paged: Pages, scored: map<Address, Score>, ghost logged: Logs)
      modifies this`counts, this`pages, this`scores, this`logs
      ensures counts == counted && pages == paged && scores == scored && logs == logged
    {
      counts, pages, scores := counted, paged, scored;
      logs := logged;
    }

    /** Appends one activity to the user's log, on the page its index falls on, and updates their score; or
        changes nothing. */
    method Record(user: Address, kind: uint32, impact: uint32) returns (r: Result<(), RegistryError>)
      requires Valid()
      modifies this`counts, this`pages, this`scores, this`logs
      ensures Valid()
      ensures kind > 4 ==> r == Err(InvalidActivityType)
      ensures kind <= 4 && impact > 1000 ==> r == Err(InvalidScoreImpact)
      ensures kind <= 4 && impact <= 1000 ==>
                (r.Ok? <==> |old(Log(user))| < U32_MAX && ScoreAfter(ScoreOf(old(scores), user, now), kind, impact, now).Ok?)
                && (r.Err? ==> r.error == Overflow)
      ensures r.Err? ==> logs == old(logs) && scores == old(scores) && pages == old(pages) && counts == old(counts)
      ensures r.Ok? ==> logs == old(logs)[user := old(Log(user)) + [Activity(user, kind, impact, now)]]
      ensures r.Ok? ==> scores.Keys == old(scores).Keys + {user}
                        && Ok(scores[user]) == ScoreAfter(ScoreOf(old(scores), user, now), kind, impact, now)
                        && forall other :: other in old(scores) && other != user ==> scores[other] == old(scores)[other]
    {
      hide Paged, Scored, ScoreAfter;
      if kind > 4 {
        return Err(InvalidActivityType);
      }
      :- Need(impact <= 1000, InvalidScoreImpact);
      var total := CountOf(counts, user);
      assert |Log(user)| == total by { CountIsLength(user); }
      :- Need(total + 1 <= U32_MAX, Overflow);
      ScoringOnlyOverflows(ScoreOf(scores, user, now), kind, impact, now);
      var scored :- ScoreAfter(ScoreOf(scores, user, now), kind, impact, now);
      var entry, index: uint32 := Activity(user, kind, impact, now), total / PAGE_SIZE;
      PushKeepsPaged(counts, pages, logs, user, index, entry);
      RecordKeepsScored(scores, logs, user, now, entry);
      Store(counts[user := total + 1], pages[(user, index) := PageAt(pages, user, index) + [entry]], scores[user := scored],
            logs[user := Log(user) + [entry]]);
      return Ok(());
    }

    /** Exactly the requested slice of the flat log, clipped to its length, also where the index products
        saturate. */
    method GetHistory(user: Address, page: uint32, pageSize: uint32) returns (out: seq<Activity>)
      requires Valid()
      ensures 0 <= page * pageSize
      ensures out == Clip(Log(user), page * pageSize, page * pageSize + pageSize)
    {
      hide PageOf, Valid;
      out := [];
      assert 0 <= page * pageSize;
      ghost var from := page * pageSize;
      var total := CountOf(counts, user);
      assert |Log(user)| == total by { CountIsLength(user); }
      if pageSize == 0 {
        return;
      }
      var start := Min(page * pageSize, U32_MAX);
      if start >= total {
        return;
      }
      assert start == from;
      var end := Min(Min(start + pageSize, U32_MAX), total);
      out := Slice(user, start, end);
    }

    lemma CountIsLength(user: Address)
      requires Valid()
      ensures |Log(user)| == CountOf(counts, user)
    {
    }

    /** The loop over single entries, which keeps the page it read last. */
    method Slice(user: Address, start: nat, end: nat) returns (out: seq<Activity>)
      requires Valid() && start <= end <= |Log(user)| <= U32_MAX
      ensures out == Log(user)[start..end]
    {
      hide Paged, Scored;
      out := [];
      var currentIndex: uint32 := U32_MAX;
      var currentPage: Option<seq<Activity>> := None;
      for k := start to end
        invariant out == Log(user)[start..k]
        invariant currentIndex != U32_MAX ==>
                    currentPage == if (user, currentIndex) in pages then Some(pages[(user, currentIndex)]) else None
      {
        var index, offset := k / PAGE_SIZE, k % PAGE_SIZE;
        if index != currentIndex {
          currentIndex := index;
          currentPage := if (user, index) in pages then Some(pages[(user, index)]) else None;
        }
        EntryIsStored(counts, pages, logs, user, k);
        if currentPage.Some? && offset < |currentPage.value| {
          out := out + [currentPage.value[offset]];
        }
      }
    }

    /** In every valid registry a stored score is exactly what the user's log has earned. */
    lemma ScoreIsEarned(user: Address)
      requires Valid() && user in scores
      ensures scores[user].points == Min(Impacts(Log(user)), 1000) && scores[user].tier == TierOf(scores[user].points)
      ensures scores[user].totalCircles == CountKind(Log(user), 0) && scores[user].completedCircles == CountKind(Log(user), 2)
      ensures scores[user].defaultedCircles == CountKind(Log(user), 3) && scores[user].streak == StreakOf(Log(user))
    {
    }
  }

  /** Reading every page of one size, in order, gives the whole log back. */
  function ReadUpTo<T>(log: seq<T>, size: nat, n: nat): seq<T> {
    if n == 0 then [] else ReadUpTo(log, size, n - 1) + Clip(log, (n - 1) * size, (n - 1) * size + size)
  }

  lemma ClipJoins<T>(log: seq<T>, from: nat, size: nat)
    ensures Clip(log, 0, from) + Clip(log, from, from + size) == Clip(log, 0, from + size)
  {
  }

  lemma WholeClip<T>(log: seq<T>, to: nat)
    ensures to >= |log| ==> Clip(log, 0, to) == log
  {
  }

  lemma {:induction false} HistoryPagesTileLog<T>(log: seq<T>, size: nat, n: nat)
    ensures ReadUpTo(log, size, n) == Clip(log, 0, n * size)
    ensures n * size >= |log| ==> ReadUpTo(log, size, n) == log
  {
    if n > 0 {
      HistoryPagesTileLog(log, size, n - 1);
      assert n * size == (n - 1) * size + size;
      ClipJoins(log, (n - 1) * size, size);
      WholeClip(log, n * size);
      hide Clip;
    }
  }
}
