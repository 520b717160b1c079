/**
 * Scoring the notes of a vault: keyword seeds, spread along links and halved at every hop.
 *
 * `ScoreNotes` is the breadth-first search with its queue and visited set; `IsScore` says
 * what a score is, through shortest link distances and without any order of the seeds.
 */
module LinkScoring {
  import opened Wrappers

  datatype Note = Note(rel: string, title: string, content: string, links: seq<string>)

  /** A note, by its position in the vault, and its score. */
  datatype Scored = Scored(index: nat, score: real)

  datatype QueueItem = QueueItem(index: nat, depth: nat)

  // ---------- Links ----------

  /** Where a link leads: the last note with that name, compared in lower case. */
  function Resolve(notes: seq<Note>, lower: string -> string, link: string): (target: Option<nat>)
    ensures target.Some? ==> target.value < |notes|
  {
    if notes == [] then None
    else if lower(notes[|notes| - 1].rel) == lower(link) then Some(|notes| - 1)
    else Resolve(notes[..|notes| - 1], lower, link)
  }

  predicate Links(notes: seq<Note>, lower: string -> string, from: nat, to: nat) {
    from < |notes| && exists link <- notes[from].links :: Resolve(notes, lower, link) == Some(to)
  }

  /** A link leads to a note of its name, and no later note has that name; to none if there is no such note. */
  lemma {:induction false} ResolveIff(notes: seq<Note>, lower: string -> string, link: string, target: nat)
    ensures Resolve(notes, lower, link) == Some(target) <==>
      && target < |notes| && lower(notes[target].rel) == lower(link)
      && forall later :: target < later < |notes| ==> lower(notes[later].rel) != lower(link)
    ensures Resolve(notes, lower, link).None? <==> forall note <- notes :: lower(note.rel) != lower(link)
    decreases |notes|
  {
    if notes != [] {
      var front, last := notes[..|notes| - 1], notes[|notes| - 1];
      ResolveIff(front, lower, link, target);
      assert notes == front + [last];
    }
  }

  /** The notes at most `d` links away from `source`. */
  ghost predicate Within(notes: seq<Note>, lower: string -> string, source: nat, d: nat, target: nat) {
    if d == 0 then target == source
    else
      || Within(notes, lower, source, d - 1, target)
      || exists via :: Within(notes, lower, source, d - 1, via) && Links(notes, lower, via, target)
  }

  /** `d` is the shortest link distance. */
  ghost predicate AtDistance(notes: seq<Note>, lower: string -> string, source: nat, d: nat, target: nat) {
    Within(notes, lower, source, d, target) && (d > 0 ==> !Within(notes, lower, source, d - 1, target))
  }

  ghost predicate IsPath(notes: seq<Note>, lower: string -> string, path: seq<nat>) {
    path != [] && forall i, j :: 0 <= i && j == i + 1 < |path| ==> Links(notes, lower, path[i], path[j])
  }

  /** That is, some path of at most `d` links leads there. */
  lemma {:induction false} PathOfWithin(notes: seq<Note>, lower: string -> string, source: nat, d: nat, target: nat)
    returns (path: seq<nat>)
    requires Within(notes, lower, source, d, target)
    ensures IsPath(notes, lower, path) && path[0] == source && path[|path| - 1] == target && |path| <= d + 1
  {
    hide Links;
    if d == 0 {
      path := [source];
    } else if Within(notes, lower, source, d - 1, target) {
      path := PathOfWithin(notes, lower, source, d - 1, target);
    } else {
      var via :| Within(notes, lower, source, d - 1, via) && Links(notes, lower, via, target);
      var front := PathOfWithin(notes, lower, source, d - 1, via);
      path := front + [target];
    }
  }

  lemma {:induction false} WithinOfPath(notes: seq<Note>, lower: string -> string, path: seq<nat>)
    requires IsPath(notes, lower, path)
    ensures Within(notes, lower, path[0], |path| - 1, path[|path| - 1])
  {
    hide Links;
    if |path| > 1 {
      var k := |path| - 2;
      WithinOfPath(notes, lower, path[..k + 1]);
      assert Links(notes, lower, path[k], path[k + 1]);
    }
  }

  lemma {:induction false} WithinGrows(notes: seq<Note>, lower: string -> string, source: nat, d: nat, e: nat, target: nat)
    requires d <= e && Within(notes, lower, source, d, target)
    ensures Within(notes, lower, source, e, target)
    decreases e - d
  {
    if d < e { WithinGrows(notes, lower, source, d + 1, e, target); }
  }

  lemma DistanceUnique(notes: seq<Note>, lower: string -> string, source: nat, d: nat, e: nat, target: nat)
    requires AtDistance(notes, lower, source, d, target) && AtDistance(notes, lower, source, e, target)
    ensures d == e
  {
    if d < e { WithinGrows(notes, lower, source, d, e - 1, target); }
    if e < d { WithinGrows(notes, lower, source, e, d - 1, target); }
  }

  /** A note within reach has a shortest distance. */
  lemma {:induction false} HasDistance(notes: seq<Note>, lower: string -> string, source: nat, d: nat, target: nat)
    returns (shortest: nat)
    requires Within(notes, lower, source, d, target)
    ensures shortest <= d && AtDistance(notes, lower, source, shortest, target)
  {
    if d == 0 || !Within(notes, lower, source, d - 1, target) {
      shortest := d;
    } else {
      shortest := HasDistance(notes, lower, source, d - 1, target);
    }
  }

  // ---------- Scores ----------

  function Half(d: nat): (h: real)
    ensures 0.0 < h <= 1.0
  {
    if d == 0 then 1.0 else Half(d - 1) / 2.0
  }

  /** What is left of a seed's score after `d` links. */
  function Offer(seedScore: nat, d: nat): (offer: real)
    ensures offer >= 0.0 && (seedScore > 0 ==> offer > 0.0)
  {
    seedScore as real * Half(d)
  }

  function PowerOfTwo(d: nat): (power: real)
    ensures power >= 1.0
  {
    if d == 0 then 1.0 else 2.0 * PowerOfTwo(d - 1)
  }

  /** The offer is the seed's score divided by two as often as there are links. */
  lemma {:induction false} OfferTimesPower(seedScore: nat, d: nat)
    ensures Half(d) * PowerOfTwo(d) == 1.0
    ensures Offer(seedScore, d) * PowerOfTwo(d) == seedScore as real
  {
    if d > 0 { OfferTimesPower(seedScore, d - 1); }
    var s, h, w := seedScore as real, Half(d), PowerOfTwo(d);
    assert s * h * w == s * (h * w);
  }

  function Max(a: real, b: real): (m: real) {
    if a < b then b else a
  }

  /** `seed` gives `target` this much: all of it to itself, half per link to others within reach. */
  ghost predicate Gives(notes: seq<Note>, lower: string -> string, seeds: map<nat, nat>, linkDepth: int,
                        seed: nat, target: nat, score: real)
  {
    seed in seeds &&
    ((target == seed && score == seeds[seed] as real) ||
     (target != seed && exists d: nat :: 1 <= d <= linkDepth && AtDistance(notes, lower, seed, d, target)
                                          && score == Offer(seeds[seed], d)))
  }

  /** The largest of what the note itself and the seeds in `from` give it, or 0 if that is nothing. */
  ghost predicate IsScoreFrom(notes: seq<Note>, lower: string -> string, seeds: map<nat, nat>, linkDepth: int,
                              from: set<nat>, target: nat, score: real)
  {
    && score >= 0.0
    && (forall seed, s :: (seed in from || seed == target) && Gives(notes, lower, seeds, linkDepth, seed, target, s) ==>
          s <= score)
    && (score > 0.0 ==>
          exists seed :: (seed in from || seed == target) && Gives(notes, lower, seeds, linkDepth, seed, target, score))
  }

  ghost predicate IsScore(notes: seq<Note>, lower: string -> string, seeds: map<nat, nat>, linkDepth: int,
                          target: nat, score: real)
  {
    IsScoreFrom(notes, lower, seeds, linkDepth, seeds.Keys, target, score)
  }

  /** There is only one such score: no order of the seeds enters into it. */
  lemma ScoreUnique(notes: seq<Note>, lower: string -> string, seeds: map<nat, nat>, linkDepth: int,
                    target: nat, a: real, b: real)
    requires IsScore(notes, lower, seeds, linkDepth, target, a)
    requires IsScore(notes, lower, seeds, linkDepth, target, b)
    ensures a == b
  {
    hide Gives;
  }

  lemma GivesMore(notes: seq<Note>, lower: string -> string, seeds: map<nat, nat>, shallow: int, deep: int,
                  seed: nat, target: nat, score: real)
    requires shallow <= deep && Gives(notes, lower, seeds, shallow, seed, target, score)
    ensures Gives(notes, lower, seeds, deep, seed, target, score)
  {
    hide AtDistance, Offer;
  }

  /** A deeper spread never lowers a score. */
  lemma ScoreMonotone(notes: seq<Note>, lower: string -> string, seeds: map<nat, nat>, shallow: int, deep: int,
                      target: nat, a: real, b: real)
    requires shallow <= deep
    requires IsScore(notes, lower, seeds, shallow, target, a)
    requires IsScore(notes, lower, seeds, deep, target, b)
    ensures a <= b
  {
    if a > 0.0 {
      var seed :| (seed in seeds.Keys || seed == target) && Gives(notes, lower, seeds, shallow, seed, target, a);
      GivesMore(notes, lower, seeds, shallow, deep, seed, target, a);
    }
  }

  // ---------- The search from one seed ----------

  ghost function Below(n: nat): (indices: set<nat>)
    ensures forall i: nat :: i in indices <==> i < n
  {
    if n == 0 then {} else Below(n - 1) + {n - 1}
  }

  function ScoreOf(scores: map<nat, real>, i: nat): (score: real) {
    if i in scores then scores[i] else 0.0
  }

  ghost predicate InQueue(queue: seq<QueueItem>, index: nat) {
    exists i :: 0 <= i < |queue| && queue[i].index == index
  }

  /** Every queued note is queued once, at its shortest distance, nearer ones first. */
  ghost predicate QueueOk(notes: seq<Note>, lower: string -> string, seed: nat, linkDepth: int,
                          queue: seq<QueueItem>, visited: set<nat>)
  {
    && queue != [] && queue[0] == QueueItem(seed, 0)
    && (forall i :: 0 <= i < |queue| ==>
          queue[i].index < |notes| && queue[i].depth <= linkDepth
          && AtDistance(notes, lower, seed, queue[i].depth, queue[i].index))
    && (forall i, j :: 0 <= i < j < |queue| ==>
          queue[i].index != queue[j].index && queue[i].depth <= queue[j].depth)
    && (forall v :: v in visited <==> InQueue(queue, v))
  }

  /** The successors of the first `cursor` queued notes have been visited. */
  ghost predicate Expanded(notes: seq<Note>, lower: string -> string, linkDepth: int,
                           queue: seq<QueueItem>, cursor: nat, visited: set<nat>)
  {
    forall i, to ::
      0 <= i < cursor && i < |queue| && queue[i].depth < linkDepth && Links(notes, lower, queue[i].index, to) ==>
      to in visited
  }

  /** When all nearer notes have been expanded, everything within `k` links has been visited. */
  lemma {:induction false} AllVisited(notes: seq<Note>, lower: string -> string, seed: nat, linkDepth: int,
                                      queue: seq<QueueItem>, cursor: nat, visited: set<nat>, k: nat, target: nat)
    requires QueueOk(notes, lower, seed, linkDepth, queue, visited)
    requires Expanded(notes, lower, linkDepth, queue, cursor, visited)
    requires k <= linkDepth
    requires forall i :: cursor <= i < |queue| ==> k <= queue[i].depth
    requires Within(notes, lower, seed, k, target)
    ensures target in visited
    decreases k
  {
    if k == 0 {
      assert queue[0].index == seed;
    } else if Within(notes, lower, seed, k - 1, target) {
      AllVisited(notes, lower, seed, linkDepth, queue, cursor, visited, k - 1, target);
    } else {
      var via :| Within(notes, lower, seed, k - 1, via) && Links(notes, lower, via, target);
      AllVisited(notes, lower, seed, linkDepth, queue, cursor, visited, k - 1, via);
      var i :| 0 <= i < |queue| && queue[i].index == via;
      if queue[i].depth >= k {
        WithinGrows(notes, lower, seed, k - 1, queue[i].depth - 1, via);
      }
      assert i < cursor;
    }
  }

  /** Within reach of a spread from `seed`, at distance `d`. */
  ghost predicate Reached(notes: seq<Note>, lower: string -> string, linkDepth: int, seed: nat, d: nat, target: nat) {
    1 <= d <= linkDepth && AtDistance(notes, lower, seed, d, target)
  }

  /** What a spread from one seed does to the scores. */
  ghost predicate SpreadOk(notes: seq<Note>, lower: string -> string, linkDepth: int, seed: nat, seedScore: nat,
                           before: map<nat, real>, after: map<nat, real>)
  {
    && (forall target, d :: Reached(notes, lower, linkDepth, seed, d, target) ==>
          ScoreOf(after, target) == Max(ScoreOf(before, target), Offer(seedScore, d)))
    && (forall target :: !(exists d :: Reached(notes, lower, linkDepth, seed, d, target)) ==>
          ScoreOf(after, target) == ScoreOf(before, target))
  }

  /** What the queue says the scores are. */
  ghost predicate QueueScores(queue: seq<QueueItem>, seedScore: nat, before: map<nat, real>, scores: map<nat, real>) {
    && (forall i :: 1 <= i < |queue| ==>
          ScoreOf(scores, queue[i].index) == Max(ScoreOf(before, queue[i].index), Offer(seedScore, queue[i].depth)))
    && (forall target :: (forall i :: 1 <= i < |queue| ==> queue[i].index != target) ==>
          ScoreOf(scores, target) == ScoreOf(before, target))
  }

  /** A link to a note not yet visited leads one step further than the note it is on. */
  lemma NewDistance(notes: seq<Note>, lower: string -> string, seed: nat, linkDepth: int,
                    queue: seq<QueueItem>, cursor: nat, visited: set<nat>, target: nat)
    requires QueueOk(notes, lower, seed, linkDepth, queue, visited)
    requires Expanded(notes, lower, linkDepth, queue, cursor, visited)
    requires cursor < |queue| && queue[cursor].depth < linkDepth
    requires Links(notes, lower, queue[cursor].index, target) && target !in visited
    ensures AtDistance(notes, lower, seed, queue[cursor].depth + 1, target)
  {
    var d := queue[cursor].depth;
    assert Within(notes, lower, seed, d, queue[cursor].index);
    if Within(notes, lower, seed, d, target) {
      AllVisited(notes, lower, seed, linkDepth, queue, cursor, visited, d, target);
    }
  }

  lemma Enqueue(notes: seq<Note>, lower: string -> string, seed: nat, linkDepth: int, seedScore: nat,
                queue: seq<QueueItem>, visited: set<nat>, target: nat, depth: nat,
                before: map<nat, real>, scores: map<nat, real>)
    requires QueueOk(notes, lower, seed, linkDepth, queue, visited)
    requires QueueScores(queue, seedScore, before, scores)
    requires target < |notes| && target !in visited && depth <= linkDepth
    requires AtDistance(notes, lower, seed, depth, target)
    requires forall i :: 0 <= i < |queue| ==> queue[i].depth <= depth
    ensures var longer := queue + [QueueItem(target, depth)];
      && QueueOk(notes, lower, seed, linkDepth, longer, visited + {target})
      && QueueScores(longer, seedScore, before,
                     scores[target := Max(ScoreOf(scores, target), Offer(seedScore, depth))])
  {
    hide AtDistance, Offer, Max;
    var item := QueueItem(target, depth);
    var longer := queue + [item];
    assert !InQueue(queue, target);
    assert forall i :: 0 <= i < |queue| ==> longer[i] == queue[i] && queue[i].index != target;
    assert ScoreOf(scores, target) == ScoreOf(before, target);
    assert longer[|queue|] == item;
    forall v
      ensures v in visited + {target} <==> InQueue(longer, v)
    {
      if InQueue(queue, v) {
        var i :| 0 <= i < |queue| && queue[i].index == v;
        assert longer[i].index == v;
      }
      if v == target { assert longer[|queue|].index == v; }
    }
  }

  /** When the queue is exhausted, it holds exactly the notes within reach. */
  lemma QueueComplete(notes: seq<Note>, lower: string -> string, seed: nat, linkDepth: int, seedScore: nat,
                      queue: seq<QueueItem>, visited: set<nat>, before: map<nat, real>, scores: map<nat, real>)
    requires QueueOk(notes, lower, seed, linkDepth, queue, visited) && linkDepth >= 1
    requires Expanded(notes, lower, linkDepth, queue, |queue|, visited)
    requires QueueScores(queue, seedScore, before, scores)
    ensures SpreadOk(notes, lower, linkDepth, seed, seedScore, before, scores)
  {
    hide Expanded, Offer, Max;
    forall target, d | Reached(notes, lower, linkDepth, seed, d, target)
      ensures ScoreOf(scores, target) == Max(ScoreOf(before, target), Offer(seedScore, d))
    {
      AllVisited(notes, lower, seed, linkDepth, queue, |queue|, visited, d, target);
      var i :| 0 <= i < |queue| && queue[i].index == target;
      DistanceUnique(notes, lower, seed, queue[i].depth, d, target);
      assert i != 0;
    }
    forall target | !(exists d :: Reached(notes, lower, linkDepth, seed, d, target))
      ensures ScoreOf(scores, target) == ScoreOf(before, target)
    {
      forall i | 1 <= i < |queue|
        ensures queue[i].index != target
      {
        assert queue[i].index != queue[0].index;
        assert queue[i].index == target ==> Reached(notes, lower, linkDepth, seed, queue[i].depth, target);
      }
    }
  }

  /** The links of one note: every target not yet visited is queued and scored. */
  method FollowLinks(notes: seq<Note>, lower: string -> string, idx: map<string, nat>, linkDepth: int,
                     ghost seed: nat, seedScore: nat, queue: seq<QueueItem>, cursor: nat, visited: set<nat>,
                     scores: map<nat, real>, ghost before: map<nat, real>)
    returns (queue': seq<QueueItem>, visited': set<nat>, scores': map<nat, real>)
    requires forall link :: Lookup(idx, lower(link)) == Resolve(notes, lower, link)
    requires QueueOk(notes, lower, seed, linkDepth, queue, visited)
    requires Expanded(notes, lower, linkDepth, queue, cursor, visited)
    requires cursor < |queue| && queue[cursor].depth < linkDepth
    requires forall i :: 0 <= i < |queue| ==> queue[i].depth <= queue[cursor].depth + 1
    requires QueueScores(queue, seedScore, before, scores)
    ensures QueueOk(notes, lower, seed, linkDepth, queue', visited')
    ensures QueueScores(queue', seedScore, before, scores')
    ensures queue <= queue' && visited <= visited'
    ensures forall i :: |queue| <= i < |queue'| ==> queue'[i].depth == queue[cursor].depth + 1
    ensures Expanded(notes, lower, linkDepth, queue', cursor + 1, visited')
  {
    hide QueueOk, QueueScores, AtDistance, Resolve, Offer, Max;
    queue', visited', scores' := queue, visited, scores;
    var current := queue[cursor];
    QueueIndices(notes, lower, seed, linkDepth, queue, visited);
    var links := notes[current.index].links;
    var depth := current.depth + 1;
    for k := 0 to |links|
      invariant QueueOk(notes, lower, seed, linkDepth, queue', visited')
      invariant QueueScores(queue', seedScore, before, scores')
      invariant queue <= queue' && visited <= visited'
      invariant forall i :: |queue| <= i < |queue'| ==> queue'[i].depth == depth
      invariant forall j :: 0 <= j < k && Resolve(notes, lower, links[j]).Some? ==>
                  Resolve(notes, lower, links[j]).value in visited'
    {
      var target := Lookup(idx, lower(links[k]));
      assert target == Resolve(notes, lower, links[k]);
      if target.Some? && target.value !in visited' {
        assert Links(notes, lower, current.index, target.value) by { assert links[k] in links; }
        assert Expanded(notes, lower, linkDepth, queue', cursor, visited');
        NewDistance(notes, lower, seed, linkDepth, queue', cursor, visited', target.value);
        Enqueue(notes, lower, seed, linkDepth, seedScore, queue', visited', target.value, depth, before, scores');
        visited' := visited' + {target.value};
        queue' := queue' + [QueueItem(target.value, depth)];
        scores' := scores'[target.value := Max(ScoreOf(scores', target.value), Offer(seedScore, depth))];
      }
    }
    forall i, to | 0 <= i < cursor + 1 && i < |queue'| && queue'[i].depth < linkDepth && Links(notes, lower, queue'[i].index, to)
      ensures to in visited'
    {
      assert queue'[i] == queue[i];
      if i == cursor {
        var link :| link in links && Resolve(notes, lower, link) == Some(to);
      }
    }
  }

  lemma QueueIndices(notes: seq<Note>, lower: string -> string, seed: nat, linkDepth: int,
                     queue: seq<QueueItem>, visited: set<nat>)
    requires QueueOk(notes, lower, seed, linkDepth, queue, visited)
    ensures forall i :: 0 <= i < |queue| ==> queue[i].index < |notes|
  {
  }

  function Lookup(idx: map<string, nat>, key: string): (target: Option<nat>) {
    if key in idx then Some(idx[key]) else None
  }

  /** The search from one seed. */
  method SpreadFrom(notes: seq<Note>, lower: string -> string, idx: map<string, nat>, linkDepth: int,
                    seedIndex: nat, seedScore: nat, before: map<nat, real>)
    returns (scores: map<nat, real>)
    requires forall link :: Lookup(idx, lower(link)) == Resolve(notes, lower, link)
    requires seedIndex < |notes| && linkDepth >= 1
    ensures SpreadOk(notes, lower, linkDepth, seedIndex, seedScore, before, scores)
  {
    hide QueueScores, Resolve, SpreadOk, AtDistance, Offer, Max;
    scores := before;
    var visited := {seedIndex};
    var queue := [QueueItem(seedIndex, 0)];
    StartQueue(notes, lower, seedIndex, linkDepth, seedScore, before);
    var cursor := 0;
    ghost var all := Below(|notes|);
    while cursor < |queue|
      invariant cursor <= |queue| && visited <= all
      invariant QueueOk(notes, lower, seedIndex, linkDepth, queue, visited)
      invariant Expanded(notes, lower, linkDepth, queue, cursor, visited)
      invariant QueueScores(queue, seedScore, before, scores)
      invariant cursor < |queue| ==> forall i :: 0 <= i < |queue| ==> queue[i].depth <= queue[cursor].depth + 1
      decreases all - visited, |queue| - cursor
    {
      var current := queue[cursor];
      if current.depth >= linkDepth {
        cursor := cursor + 1;
        continue;
      }
      ghost var was := visited;
      ghost var wasLength := |queue|;
      queue, visited, scores := FollowLinks(notes, lower, idx, linkDepth, seedIndex, seedScore, queue, cursor, visited, scores, before);
      VisitedInRange(notes, lower, seedIndex, linkDepth, queue, visited);
      if |queue| > wasLength {
        assert queue[wasLength].index in visited && queue[wasLength].index !in was;
      }
      cursor := cursor + 1;
    }
    QueueComplete(notes, lower, seedIndex, linkDepth, seedScore, queue, visited, before, scores);
  }

  lemma VisitedInRange(notes: seq<Note>, lower: string -> string, seed: nat, linkDepth: int,
                       queue: seq<QueueItem>, visited: set<nat>)
    requires QueueOk(notes, lower, seed, linkDepth, queue, visited)
    ensures visited <= Below(|notes|)
  {
  }

  lemma StartQueue(notes: seq<Note>, lower: string -> string, seed: nat, linkDepth: int, seedScore: nat,
                   before: map<nat, real>)
    requires seed < |notes| && linkDepth >= 1
    ensures QueueOk(notes, lower, seed, linkDepth, [QueueItem(seed, 0)], {seed})
    ensures QueueScores([QueueItem(seed, 0)], seedScore, before, before)
  {
    assert [QueueItem(seed, 0)][0].index == seed;
    assert InQueue([QueueItem(seed, 0)], seed);
  }

  // ---------- All seeds ----------

  /** Adding one seed to those that have been spread. */
  lemma ScoreAfterSpread(notes: seq<Note>, lower: string -> string, seeds: map<nat, nat>, linkDepth: int,
                         from: set<nat>, seed: nat, before: map<nat, real>, after: map<nat, real>, target: nat)
    requires seed in seeds
    requires SpreadOk(notes, lower, linkDepth, seed, seeds[seed], before, after)
    requires IsScoreFrom(notes, lower, seeds, linkDepth, from, target, ScoreOf(before, target))
    ensures IsScoreFrom(notes, lower, seeds, linkDepth, from + {seed}, target, ScoreOf(after, target))
  {
    hide AtDistance, Offer;
    if target != seed && exists d :: Reached(notes, lower, linkDepth, seed, d, target) {
      var d :| Reached(notes, lower, linkDepth, seed, d, target);
      GivesByDistance(notes, lower, seeds, linkDepth, seed, d, target);
    } else if target == seed {
      NotReachedBySelf(notes, lower, linkDepth, seed);
    } else {
      forall s
        ensures !Gives(notes, lower, seeds, linkDepth, seed, target, s)
      {
        if Gives(notes, lower, seeds, linkDepth, seed, target, s) {
          GivesReaches(notes, lower, seeds, linkDepth, seed, target, s);
        }
      }
    }
  }

  lemma GivesReaches(notes: seq<Note>, lower: string -> string, seeds: map<nat, nat>, linkDepth: int,
                     seed: nat, target: nat, score: real)
    requires seed != target && Gives(notes, lower, seeds, linkDepth, seed, target, score)
    ensures exists d :: Reached(notes, lower, linkDepth, seed, d, target)
  {
    hide AtDistance, Offer;
    var d :| 1 <= d <= linkDepth && AtDistance(notes, lower, seed, d, target) && score == Offer(seeds[seed], d);
    assert Reached(notes, lower, linkDepth, seed, d, target);
  }

  lemma GivesByDistance(notes: seq<Note>, lower: string -> string, seeds: map<nat, nat>, linkDepth: int,
                        seed: nat, d: nat, target: nat)
    requires seed in seeds && seed != target && Reached(notes, lower, linkDepth, seed, d, target)
    ensures forall s :: Gives(notes, lower, seeds, linkDepth, seed, target, s) <==> s == Offer(seeds[seed], d)
  {
    hide AtDistance, Offer;
    forall s | Gives(notes, lower, seeds, linkDepth, seed, target, s)
      ensures s == Offer(seeds[seed], d)
    {
      var e :| 1 <= e <= linkDepth && AtDistance(notes, lower, seed, e, target) && s == Offer(seeds[seed], e);
      DistanceUnique(notes, lower, seed, d, e, target);
    }
  }

  lemma NotReachedBySelf(notes: seq<Note>, lower: string -> string, linkDepth: int, seed: nat)
    ensures forall d :: !Reached(notes, lower, linkDepth, seed, d, seed)
  {
    forall d: nat | Reached(notes, lower, linkDepth, seed, d, seed)
      ensures false
    {
      WithinGrows(notes, lower, seed, 0, d - 1, seed);
    }
  }

  /** How often `needle` occurs in a text without overlaps: one less than the pieces of `split`. */
  function Occurrences(text: string, needle: string): (n: nat)
    requires needle != ""
  {
    if |text| < |needle| then 0
    else if text[..|needle|] == needle then 1 + Occurrences(text[|needle|..], needle)
    else Occurrences(text[1..], needle)
  }

  ghost predicate OccursAt(text: string, needle: string, i: nat) {
    i + |needle| <= |text| && text[i..i + |needle|] == needle
  }

  /** `text.split(needle)`: every cut is at the leftmost occurrence in what is left, and none is left at the end. */
  ghost predicate IsSplitBy(pieces: seq<string>, text: string, needle: string) {
    pieces != [] &&
    if |pieces| == 1 then pieces[0] == text && forall i :: !OccursAt(text, needle, i)
    else
      var n := |pieces[0]|;
      && OccursAt(text, needle, n) && text[..n] == pieces[0]
      && (forall i :: 0 <= i < n ==> !OccursAt(text, needle, i))
      && IsSplitBy(pieces[1..], text[n + |needle|..], needle)
  }

  function Joined(pieces: seq<string>, needle: string): (text: string) {
    if pieces == [] then "" else if |pieces| == 1 then pieces[0] else pieces[0] + needle + Joined(pieces[1..], needle)
  }

  lemma {:induction false} SplitJoins(pieces: seq<string>, text: string, needle: string)
    requires IsSplitBy(pieces, text, needle)
    ensures Joined(pieces, needle) == text
    decreases |pieces|
  {
    if |pieces| > 1 {
      var n := |pieces[0]|;
      SplitJoins(pieces[1..], text[n + |needle|..], needle);
      assert text == text[..n] + text[n..n + |needle|] + text[n + |needle|..];
    }
  }

  lemma OccursInTail(text: string, needle: string, i: nat)
    requires text != ""
    ensures OccursAt(text, needle, i + 1) <==> OccursAt(text[1..], needle, i)
  {
    if i + 1 + |needle| <= |text| { assert text[i + 1..i + 1 + |needle|] == text[1..][i..i + |needle|]; }
  }

  /** Passing over the text before the first occurrence. */
  lemma {:induction false} FirstOccurrence(text: string, needle: string, n: nat)
    requires needle != "" && OccursAt(text, needle, n) && forall i :: 0 <= i < n ==> !OccursAt(text, needle, i)
    ensures Occurrences(text, needle) == 1 + Occurrences(text[n + |needle|..], needle)
    decreases n
  {
    if n > 0 {
      assert !OccursAt(text, needle, 0);
      forall i | 0 <= i < n
        ensures OccursAt(text, needle, i + 1) <==> OccursAt(text[1..], needle, i)
      {
        OccursInTail(text, needle, i);
      }
      FirstOccurrence(text[1..], needle, n - 1);
      assert text[1..][n - 1 + |needle|..] == text[n + |needle|..];
    } else {
      assert text[0..|needle|] == text[..|needle|];
    }
  }

  lemma {:induction false} NoOccurrence(text: string, needle: string)
    requires needle != "" && forall i :: !OccursAt(text, needle, i)
    ensures Occurrences(text, needle) == 0
  {
    if |text| >= |needle| {
      assert !OccursAt(text, needle, 0);
      forall i: nat
        ensures !OccursAt(text[1..], needle, i)
      {
        OccursInTail(text, needle, i);
      }
      NoOccurrence(text[1..], needle);
    }
  }

  /** The count is one less than the number of pieces of the split. */
  lemma {:induction false} SplitCounts(pieces: seq<string>, text: string, needle: string)
    requires needle != "" && IsSplitBy(pieces, text, needle)
    ensures |pieces| == Occurrences(text, needle) + 1
    decreases |pieces|
  {
    assert |pieces| > 1 ==> |pieces[0]| + |needle| <= |text|;
    hide OccursAt, Occurrences;
    if |pieces| == 1 {
      NoOccurrence(text, needle);
    } else {
      FirstOccurrence(text, needle, |pieces[0]|);
      SplitCounts(pieces[1..], text[|pieces[0]| + |needle|..], needle);
    }
  }

  /** Every text has such a split. */
  lemma {:induction false} SplitExists(text: string, needle: string) returns (pieces: seq<string>)
    requires needle != ""
    ensures IsSplitBy(pieces, text, needle)
  {
    if |text| < |needle| {
      pieces := [text];
    } else if text[..|needle|] == needle {
      var rest := SplitExists(text[|needle|..], needle);
      pieces := [""] + rest;
      assert pieces[1..] == rest && text[0..|needle|] == needle;
    } else {
      var rest := SplitExists(text[1..], needle);
      pieces := [[text[0]] + rest[0]] + rest[1..];
      SplitLonger(text, needle, rest);
    }
  }

  lemma SplitLonger(text: string, needle: string, rest: seq<string>)
    requires needle != "" && text != "" && !OccursAt(text, needle, 0) && IsSplitBy(rest, text[1..], needle)
    ensures IsSplitBy([[text[0]] + rest[0]] + rest[1..], text, needle)
  {
    var pieces := [[text[0]] + rest[0]] + rest[1..];
    forall i: nat | 0 < i
      ensures OccursAt(text, needle, i) <==> OccursAt(text[1..], needle, i - 1)
    {
      OccursInTail(text, needle, i - 1);
    }
    assert pieces[1..] == rest[1..];
    assert |rest| > 1 ==> |rest[0]| + |needle| < |text|;
    hide OccursAt;
    assert [text[0]] + text[1..] == text;
    if |rest| > 1 {
      var n := |rest[0]|;
      assert text[..n + 1] == [text[0]] + text[1..][..n];
      assert text[n + 1 + |needle|..] == text[1..][n + |needle|..];
    }
  }

  /** A note's own score: three points for a keyword in the title, one in the body. */
  function SeedScore(keywords: seq<string>, note: Note, lower: string -> string): (score: nat) {
    if keywords == [] then 0 else
      var k := lower(keywords[|keywords| - 1]);
      SeedScore(keywords[..|keywords| - 1], note, lower) +
        if k == "" then 0 else Occurrences(lower(note.title), k) * 3 + Occurrences(lower(note.content), k)
  }

  /** Three points for every cut of the title and one for every cut of the body, over the non-empty keywords. */
  function Points(keywords: seq<string>, lower: string -> string, titles: seq<seq<string>>, bodies: seq<seq<string>>): (n: int)
    requires |keywords| == |titles| == |bodies|
  {
    if keywords == [] then 0 else
      var j := |keywords| - 1;
      Points(keywords[..j], lower, titles[..j], bodies[..j])
      + if lower(keywords[j]) == "" then 0 else 3 * (|titles[j]| - 1) + (|bodies[j]| - 1)
  }

  /** The seed score is that, for the splits of title and body at every keyword. */
  lemma {:induction false} SeedScoreIsPoints(keywords: seq<string>, note: Note, lower: string -> string,
                                             titles: seq<seq<string>>, bodies: seq<seq<string>>)
    requires |keywords| == |titles| == |bodies|
    requires forall j :: 0 <= j < |keywords| && lower(keywords[j]) != "" ==>
      && IsSplitBy(titles[j], lower(note.title), lower(keywords[j]))
      && IsSplitBy(bodies[j], lower(note.content), lower(keywords[j]))
    ensures SeedScore(keywords, note, lower) == Points(keywords, lower, titles, bodies)
    decreases |keywords|
  {
    if keywords != [] {
      hide Occurrences, IsSplitBy;
      var j := |keywords| - 1;
      SeedScoreIsPoints(keywords[..j], note, lower, titles[..j], bodies[..j]);
      if lower(keywords[j]) != "" {
        SplitCounts(titles[j], lower(note.title), lower(keywords[j]));
        SplitCounts(bodies[j], lower(note.content), lower(keywords[j]));
      }
    }
  }

  /** The notes some keyword occurs in. */
  function Seeds(keywords: seq<string>, notes: seq<Note>, lower: string -> string): (seeds: map<nat, nat>) {
    map i: nat | i < |notes| && SeedScore(keywords, notes[i], lower) > 0 :: SeedScore(keywords, notes[i], lower)
  }

  method ScoreKeywords(keywords: seq<string>, note: Note, lower: string -> string) returns (s: nat)
    ensures s == SeedScore(keywords, note, lower)
  {
    hide Occurrences;
    var title, body := lower(note.title), lower(note.content);
    s := 0;
    for j := 0 to |keywords|
      invariant s == SeedScore(keywords[..j], note, lower)
    {
      assert keywords[..j + 1][..j] == keywords[..j];
      var k := lower(keywords[j]);
      if |k| == 0 { continue; }
      s := s + (Occurrences(title, k) * 3 + Occurrences(body, k));
    }
    assert keywords[..|keywords|] == keywords;
  }

  method ComputeSeeds(keywords: seq<string>, notes: seq<Note>, lower: string -> string)
    returns (idx: map<string, nat>, seeds: map<nat, nat>, order: seq<nat>)
    ensures forall link :: Lookup(idx, lower(link)) == Resolve(notes, lower, link)
    ensures seeds == Seeds(keywords, notes, lower)
    ensures forall i :: i in order <==> i in seeds
  {
    hide SeedScore;
    idx, seeds, order := map[], map[], [];
    for i := 0 to |notes|
      invariant forall link :: Lookup(idx, lower(link)) == Resolve(notes[..i], lower, link)
      invariant seeds == Seeds(keywords, notes[..i], lower)
      invariant forall j :: j in order <==> j in seeds
    {
      assert notes[..i + 1][..i] == notes[..i];
      idx := idx[lower(notes[i].rel) := i];
      var s := ScoreKeywords(keywords, notes[i], lower);
      if s > 0 {
        seeds := seeds[i := s];
        order := order + [i];
      }
      assert seeds == Seeds(keywords, notes[..i + 1], lower);
    }
    assert notes[..|notes|] == notes;
  }

  /** The seeds one after another, in any order. */
  method SpreadAll(notes: seq<Note>, lower: string -> string, idx: map<string, nat>, linkDepth: int,
                   seeds: map<nat, nat>, order: seq<nat>)
    returns (scores: map<nat, real>)
    requires forall link :: Lookup(idx, lower(link)) == Resolve(notes, lower, link)
    requires linkDepth >= 1
    requires forall i :: i in seeds ==> i < |notes| && seeds[i] > 0
    requires forall i :: i in order <==> i in seeds
    ensures forall target :: IsScore(notes, lower, seeds, linkDepth, target, ScoreOf(scores, target))
  {
    hide IsScoreFrom, SpreadOk, Resolve;
    scores := map i | i in seeds :: seeds[i] as real;
    OwnScores(notes, lower, seeds, linkDepth, scores);
    ghost var done := {};
    for k := 0 to |order|
      invariant done == set i | i in order[..k]
      invariant forall target :: IsScoreFrom(notes, lower, seeds, linkDepth, done, target, ScoreOf(scores, target))
    {
      var seedIndex := order[k];
      assert seedIndex in order;
      ghost var before := scores;
      scores := SpreadFrom(notes, lower, idx, linkDepth, seedIndex, seeds[seedIndex], scores);
      forall target
        ensures IsScoreFrom(notes, lower, seeds, linkDepth, done + {seedIndex}, target, ScoreOf(scores, target))
      {
        ScoreAfterSpread(notes, lower, seeds, linkDepth, done, seedIndex, before, scores, target);
      }
      done := done + {seedIndex};
      assert order[..k + 1] == order[..k] + [seedIndex];
    }
    assert order[..|order|] == order;
    assert done == seeds.Keys;
  }

  lemma OwnScores(notes: seq<Note>, lower: string -> string, seeds: map<nat, nat>, linkDepth: int, scores: map<nat, real>)
    requires forall i :: i in scores <==> i in seeds
    requires forall i :: i in seeds ==> scores[i] == seeds[i] as real
    ensures forall target :: IsScoreFrom(notes, lower, seeds, linkDepth, {}, target, ScoreOf(scores, target))
  {
    hide AtDistance, Offer;
    forall target
      ensures IsScoreFrom(notes, lower, seeds, linkDepth, {}, target, ScoreOf(scores, target))
    {
      if target in seeds {
        assert Gives(notes, lower, seeds, linkDepth, target, target, seeds[target] as real);
      }
    }
  }

  /** `scoreNotes`: exactly the notes with a positive score, in the order of the vault. */
  method ScoreNotes(keywords: seq<string>, notes: seq<Note>, lower: string -> string, linkDepth: int)
    returns (result: seq<Scored>)
    ensures forall i, j :: 0 <= i < j < |result| ==> result[i].index < result[j].index
    ensures forall n: nat, score: real :: Scored(n, score) in result <==>
      n < |notes| && score > 0.0 && IsScore(notes, lower, Seeds(keywords, notes, lower), linkDepth, n, score)
  {
    hide IsScoreFrom, Resolve, Seeds;
    var idx, seeds, order := ComputeSeeds(keywords, notes, lower);
    SeedsOk(keywords, notes, lower);
    var scores: map<nat, real>;
    if linkDepth < 1 || |order| == 0 {
      scores := map i | i in seeds :: seeds[i] as real;
      OwnScores(notes, lower, seeds, linkDepth, scores);
      ShallowScores(notes, lower, seeds, linkDepth, order, scores);
    } else {
      scores := SpreadAll(notes, lower, idx, linkDepth, seeds, order);
    }
    result := Positive(notes, scores);
    forall n: nat, score: real
      ensures IsScore(notes, lower, seeds, linkDepth, n, score) <==> score == ScoreOf(scores, n)
    {
      if IsScore(notes, lower, seeds, linkDepth, n, score) {
        ScoreUnique(notes, lower, seeds, linkDepth, n, score, ScoreOf(scores, n));
      }
    }
  }

  lemma SeedsOk(keywords: seq<string>, notes: seq<Note>, lower: string -> string)
    ensures forall i :: i in Seeds(keywords, notes, lower) ==>
              i < |notes| && Seeds(keywords, notes, lower)[i] > 0
  {
  }

  /** Without links to follow, or without seeds, the own scores are the scores. */
  lemma ShallowScores(notes: seq<Note>, lower: string -> string, seeds: map<nat, nat>, linkDepth: int,
                      order: seq<nat>, scores: map<nat, real>)
    requires linkDepth < 1 || order == []
    requires forall i :: i in order <==> i in seeds
    requires forall target :: IsScoreFrom(notes, lower, seeds, linkDepth, {}, target, ScoreOf(scores, target))
    ensures forall target :: IsScore(notes, lower, seeds, linkDepth, target, ScoreOf(scores, target))
  {
    hide AtDistance, Offer;
  }

  method Positive(notes: seq<Note>, scores: map<nat, real>) returns (result: seq<Scored>)
    ensures forall i, j :: 0 <= i < j < |result| ==> result[i].index < result[j].index
    ensures forall n: nat, score: real :: Scored(n, score) in result <==>
      n < |notes| && score > 0.0 && score == ScoreOf(scores, n)
  {
    result := [];
    for n := 0 to |notes|
      invariant forall i :: 0 <= i < |result| ==> result[i].index < n
      invariant forall i, j :: 0 <= i < j < |result| ==> result[i].index < result[j].index
      invariant forall m: nat, score: real :: Scored(m, score) in result <==>
        m < n && score > 0.0 && score == ScoreOf(scores, m)
    {
      var score := ScoreOf(scores, n);
      if score > 0.0 {
        result := result + [Scored(n, score)];
      }
    }
  }
}
