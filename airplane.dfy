/** The airplane shooter (src/components/games/Airplane.tsx): one plane
    per option, bullets that fly on a fixed tick, and a shot resolved in
    two delayed phases: first the hit is marked and scored, then the game
    either moves on (correct plane) or clears the mark (wrong plane). */
module Airplane {
  import opened Questions

  const PlaneStartX: int := -20
  const PlaneTop: int := 15
  const PlaneSpacing: int := 20
  const BulletStartX: int := 5
  const BulletY: int := 50
  const BulletStep: int := 2
  const BulletLimit: int := 120

  /** The plane id `${currentQuestion}-${i}`, kept as its two numbers. */
  datatype PlaneId = PlaneId(question: nat, slot: nat)

  /** A plane; its horizontal speed and motion are not modelled. */
  datatype Plane = Plane(id: PlaneId, answer: int, isCorrect: bool, x: int, y: int)

  /** A bullet; its id `bullet-${Date.now()}` keeps the clock reading. */
  datatype Bullet = Bullet(id: int, x: int, y: int)

  /** The planes effect for a question: one plane per option, in rows 20
      apart from 15, starting off screen at -20, correct exactly when it
      carries the answer. */
  function CreatePlanes(index: nat, q: MathQuestion): (ps: seq<Plane>)
    ensures |ps| == |q.options|
    ensures forall i :: 0 <= i < |ps| ==>
              && ps[i].id == PlaneId(index, i)
              && ps[i].answer == q.options[i]
              && (ps[i].isCorrect <==> q.options[i] == q.answer)
              && ps[i].x == PlaneStartX
              && ps[i].y == PlaneTop + PlaneSpacing * i
    ensures forall i, j :: 0 <= i < j < |ps| ==> ps[i].id != ps[j].id && ps[i].y < ps[j].y
  {
    seq(|q.options|, i requires 0 <= i < |q.options| =>
      Plane(PlaneId(index, i), q.options[i], q.options[i] == q.answer, PlaneStartX, PlaneTop + PlaneSpacing * i))
  }

  /** The 50 ms bullet tick: every bullet moves 2 to the right, and those
      that reach 120 are dropped; the others keep their order
      (`TickBulletsConcat` with `TickBulletsOne`). */
  function TickBullets(bs: seq<Bullet>): (r: seq<Bullet>)
    ensures |r| <= |bs|
    ensures forall b :: b in r ==> b.x < BulletLimit && b.(x := b.x - BulletStep) in bs
  {
    if bs == [] then []
    else
      var moved := bs[0].(x := bs[0].x + BulletStep);
      var rest := TickBullets(bs[1..]);
      assert forall b :: b in bs[1..] ==> b in bs;
      if moved.x < BulletLimit then [moved] + rest else rest
  }

  /** The tick on a list of one bullet followed by others. */
  lemma TickBulletsCons(x: Bullet, rest: seq<Bullet>)
    ensures var moved := x.(x := x.x + BulletStep);
            TickBullets([x] + rest) == if moved.x < BulletLimit then [moved] + TickBullets(rest) else TickBullets(rest)
  {
    assert ([x] + rest)[0] == x && ([x] + rest)[1..] == rest;
  }

  /** Sequence facts used below, proved apart from the tick's contract. */
  lemma ConcatAssoc(p: seq<Bullet>, q: seq<Bullet>, t: seq<Bullet>)
    ensures p + (q + t) == (p + q) + t
  {
  }

  lemma SplitHead(a: seq<Bullet>, b: seq<Bullet>)
    requires a != []
    ensures a == [a[0]] + a[1..] && a + b == [a[0]] + (a[1..] + b)
  {
  }

  /** One bullet in front of a list the tick splits keeps the split. */
  lemma TickBulletsConcatStep(x: Bullet, tail: seq<Bullet>, b: seq<Bullet>)
    requires TickBullets(tail + b) == TickBullets(tail) + TickBullets(b)
    ensures TickBullets([x] + (tail + b)) == TickBullets([x] + tail) + TickBullets(b)
  {
    TickBulletsCons(x, tail);
    TickBulletsCons(x, tail + b);
    var moved := x.(x := x.x + BulletStep);
    ConcatAssoc([moved], TickBullets(tail), TickBullets(b));
  }

  /** The tick works bullet by bullet: on a list split in two it is the
      tick of each part, joined in the same order. With `TickBulletsOne`
      this fixes the order and number of the bullets it keeps. */
  lemma {:induction false} TickBulletsConcat(a: seq<Bullet>, b: seq<Bullet>)
    ensures TickBullets(a + b) == TickBullets(a) + TickBullets(b)
  {
    if a == [] {
      assert a + b == b;
    } else {
      TickBulletsConcat(a[1..], b);
      SplitHead(a, b);
      TickBulletsConcatStep(a[0], a[1..], b);
    }
  }

  /** One bullet is moved 2 to the right, or dropped when it reaches 120. */
  lemma TickBulletsOne(b: Bullet)
    ensures b.x + BulletStep < BulletLimit ==> TickBullets([b]) == [b.(x := b.x + BulletStep)]
    ensures b.x + BulletStep >= BulletLimit ==> TickBullets([b]) == []
  {
    assert [b][1..] == [];
  }

  /** Every bullet that stays short of 120 is kept, moved 2 to the right. */
  lemma {:induction false} TickBulletsKeepsInside(bs: seq<Bullet>)
    ensures forall b :: b in bs && b.x + BulletStep < BulletLimit ==> b.(x := b.x + BulletStep) in TickBullets(bs)
  {
    if bs != [] {
      var moved := bs[0].(x := bs[0].x + BulletStep);
      var rest := TickBullets(bs[1..]);
      assert TickBullets(bs) == if moved.x < BulletLimit then [moved] + rest else rest;
      TickBulletsKeepsInside(bs[1..]);
      forall b | b in bs && b.x + BulletStep < BulletLimit
        ensures b.(x := b.x + BulletStep) in TickBullets(bs)
      {
        if b == bs[0] {
          assert TickBullets(bs) == [moved] + rest;
        } else {
          assert b in bs[1..];
          assert b.(x := b.x + BulletStep) in rest;
        }
      }
    }
  }

  /** When no bullet reaches 120, the tick moves each of them 2 to the
      right and keeps their number and order. */
  lemma {:induction false} TickBulletsNoneDropped(bs: seq<Bullet>)
    requires forall i :: 0 <= i < |bs| ==> bs[i].x + BulletStep < BulletLimit
    ensures |TickBullets(bs)| == |bs|
    ensures forall i :: 0 <= i < |bs| ==> TickBullets(bs)[i] == bs[i].(x := bs[i].x + BulletStep)
  {
    if bs != [] {
      TickBulletsNoneDropped(bs[1..]);
      var moved := bs[0].(x := bs[0].x + BulletStep);
      var rest := TickBullets(bs[1..]);
      assert TickBullets(bs) == [moved] + rest;
      forall i | 1 <= i < |bs|
        ensures TickBullets(bs)[i] == bs[i].(x := bs[i].x + BulletStep)
      {
        assert TickBullets(bs)[i] == rest[i - 1] && bs[1..][i - 1] == bs[i];
      }
    }
  }

  /** A shot waiting for its 500 ms phase: the plane aimed at, and the
      score and question index of the render in which it was fired, which
      the callback reads instead of the current ones. */
  datatype Shot = Shot(plane: Plane, score: nat, question: nat)

  /** A hit waiting for its 1000 ms phase: whether the plane was correct,
      and the question index of the render that fired the shot. */
  datatype Outcome = Outcome(correct: bool, question: nat)

  /** The component's state fields, with the callbacks of each phase that
      have not fired, oldest first. */
  datatype AState = AState(
    currentQuestion: nat,
    planes: seq<Plane>,
    score: nat,
    showResult: bool,
    shotPlane: Option<PlaneId>,
    bullets: seq<Bullet>,
    pendingHits: seq<Shot>,
    pendingOutcomes: seq<Outcome>)

  /** The planes of the current question; none without a question. */
  function PlanesFor(questions: seq<MathQuestion>, index: nat): seq<Plane>
  {
    if index < |questions| then CreatePlanes(index, questions[index]) else []
  }

  function Initial(questions: seq<MathQuestion>): AState
  {
    AState(0, PlanesFor(questions, 0), 0, false, None, [], [], [])
  }

  /** An index the session can be at: a question, or 0 without any. */
  predicate IndexOk(i: nat, questions: seq<MathQuestion>)
  {
    i < |questions| || (|questions| == 0 && i == 0)
  }

  predicate Consistent(s: AState, questions: seq<MathQuestion>)
  {
    && IndexOk(s.currentQuestion, questions)
    && s.planes == PlanesFor(questions, s.currentQuestion)
    && (forall b :: b in s.bullets ==> b.x < BulletLimit)
    && (forall h :: h in s.pendingHits ==> IndexOk(h.question, questions))
    && (forall o :: o in s.pendingOutcomes ==> IndexOk(o.question, questions))
  }

  lemma InitialConsistent(questions: seq<MathQuestion>)
    ensures Consistent(Initial(questions), questions)
  {
  }

  /** The bullet tick applied to the state: only the bullets change. */
  function BulletTick(s: AState, questions: seq<MathQuestion>): (r: AState)
    requires Consistent(s, questions)
    ensures Consistent(r, questions)
    ensures r.bullets == TickBullets(s.bullets) && |r.bullets| <= |s.bullets|
    ensures r == s.(bullets := r.bullets)
  {
    s.(bullets := TickBullets(s.bullets))
  }

  /** `handleShoot` on a shown plane: ignored while a hit is marked;
      otherwise one bullet is fired from (5, 50) and the first phase is
      started with this render's score and index. The mark is set only
      when that phase fires, so shots in the 500 ms window are all
      accepted. */
  function Shoot(s: AState, questions: seq<MathQuestion>, plane: Plane, now: int): (r: AState)
    requires Consistent(s, questions) && plane in s.planes
    ensures Consistent(r, questions)
    ensures s.shotPlane.Some? ==> r == s
    ensures s.shotPlane.None? ==>
              && r.bullets == s.bullets + [Bullet(now, BulletStartX, BulletY)]
              && r.pendingHits == s.pendingHits + [Shot(plane, s.score, s.currentQuestion)]
              && r == s.(bullets := r.bullets, pendingHits := r.pendingHits)
  {
    if s.shotPlane.Some? then s
    else
      s.(bullets := s.bullets + [Bullet(now, BulletStartX, BulletY)],
         pendingHits := s.pendingHits + [Shot(plane, s.score, s.currentQuestion)])
  }

  /** The 500 ms phase of the oldest pending shot: the plane is marked as
      shot, a correct plane sets the score to one more than the score of
      the render that fired, and the second phase is started. */
  function ResolveHit(s: AState, questions: seq<MathQuestion>): (r: AState)
    requires Consistent(s, questions) && |s.pendingHits| > 0
    ensures Consistent(r, questions)
    ensures r.shotPlane == Some(s.pendingHits[0].plane.id)
    ensures r.score == if s.pendingHits[0].plane.isCorrect then s.pendingHits[0].score + 1 else s.score
    ensures r.pendingHits == s.pendingHits[1..]
    ensures r.pendingOutcomes == s.pendingOutcomes + [Outcome(s.pendingHits[0].plane.isCorrect, s.pendingHits[0].question)]
    ensures r == s.(shotPlane := r.shotPlane, score := r.score, pendingHits := r.pendingHits, pendingOutcomes := r.pendingOutcomes)
  {
    var shot := s.pendingHits[0];
    assert shot in s.pendingHits;
    assert forall h :: h in s.pendingHits[1..] ==> h in s.pendingHits;
    s.(shotPlane := Some(shot.plane.id),
       score := if shot.plane.isCorrect then shot.score + 1 else s.score,
       pendingHits := s.pendingHits[1..],
       pendingOutcomes := s.pendingOutcomes + [Outcome(shot.plane.isCorrect, shot.question)])
  }

  /** The 1000 ms phase of the oldest resolved hit. After a correct hit on
      a question that is not the last: the question after the one the shot
      was fired on, its planes, no mark and no bullets; after a correct hit
      on the last: the result screen. After a wrong hit: only the mark is
      cleared. */
  function AfterHit(s: AState, questions: seq<MathQuestion>): (r: AState)
    requires Consistent(s, questions) && |s.pendingOutcomes| > 0
    ensures Consistent(r, questions)
    ensures r.score == s.score && r.pendingHits == s.pendingHits
    ensures r.pendingOutcomes == s.pendingOutcomes[1..]
    ensures var o := s.pendingOutcomes[0];
            o.correct && HasNext(questions, o.question) ==>
              && r.currentQuestion == o.question + 1
              && r.shotPlane.None? && r.bullets == [] && r.showResult == s.showResult
              && r.planes == CreatePlanes(o.question + 1, questions[o.question + 1])
    ensures var o := s.pendingOutcomes[0];
            o.correct && !HasNext(questions, o.question) ==>
              r == s.(showResult := true, pendingOutcomes := r.pendingOutcomes)
    ensures !s.pendingOutcomes[0].correct ==>
              r == s.(shotPlane := None, pendingOutcomes := r.pendingOutcomes)
  {
    var o := s.pendingOutcomes[0];
    var rest := s.pendingOutcomes[1..];
    assert forall x :: x in rest ==> x in s.pendingOutcomes;
    if o.correct then
      if HasNext(questions, o.question) then
        s.(currentQuestion := o.question + 1,
           planes := CreatePlanes(o.question + 1, questions[o.question + 1]),
           shotPlane := None,
           bullets := [],
           pendingOutcomes := rest)
      else s.(showResult := true, pendingOutcomes := rest)
    else s.(shotPlane := None, pendingOutcomes := rest)
  }

  /** What can happen: a bullet tick, a click on the plane at `slot` with
      the clock reading, or the oldest callback of either phase firing. */
  datatype Event = Tick | ShootAt(slot: nat, now: int) | HitFires | AfterHitFires

  /** One event; a click after the result screen, on a plane not shown, or
      a phase with nothing pending, changes nothing. */
  function Step(s: AState, questions: seq<MathQuestion>, e: Event): AState
    requires Consistent(s, questions)
  {
    match e
    case Tick => BulletTick(s, questions)
    case ShootAt(slot, now) =>
      if !s.showResult && slot < |s.planes| then Shoot(s, questions, s.planes[slot], now) else s
    case HitFires => if |s.pendingHits| > 0 then ResolveHit(s, questions) else s
    case AfterHitFires => if |s.pendingOutcomes| > 0 then AfterHit(s, questions) else s
  }

  /** Any session keeps the index on a question, the planes those of that
      question, and every bullet short of 120. */
  function Run(s: AState, questions: seq<MathQuestion>, events: seq<Event>): (r: AState)
    requires Consistent(s, questions)
    ensures Consistent(r, questions)
    ensures forall b :: b in r.bullets ==> b.x < BulletLimit
    ensures |questions| > 0 ==> r.planes == CreatePlanes(r.currentQuestion, questions[r.currentQuestion])
    ensures s.showResult ==> r.showResult
    decreases |events|
  {
    if events == [] then s
    else Run(Step(s, questions, events[0]), questions, events[1..])
  }

  /** How many first-phase callbacks fire in a session. */
  function HitCount(events: seq<Event>): nat
  {
    if events == [] then 0 else (if events[0].HitFires? then 1 else 0) + HitCount(events[1..])
  }

  /** No score, current or captured by a pending shot, is above `b`. */
  predicate ScoreBound(s: AState, b: nat)
  {
    s.score <= b && forall h :: h in s.pendingHits ==> h.score <= b
  }

  /** The score rises by at most one per first-phase callback: a shot
      records a score already reached, and its callback adds one to it. */
  lemma {:induction false} ScoreBoundRun(s: AState, questions: seq<MathQuestion>, events: seq<Event>, b: nat)
    requires Consistent(s, questions) && ScoreBound(s, b)
    ensures ScoreBound(Run(s, questions, events), b + HitCount(events))
    decreases |events|
  {
    if events != [] {
      var e := events[0];
      var s1 := Step(s, questions, e);
      var b1 := b + if e.HitFires? then 1 else 0;
      if e.HitFires? && |s.pendingHits| > 0 {
        assert s.pendingHits[0] in s.pendingHits;
        assert forall h :: h in s.pendingHits[1..] ==> h in s.pendingHits;
      }
      assert ScoreBound(s1, b1);
      ScoreBoundRun(s1, questions, events[1..], b1);
    }
  }

  /** The order the pending callbacks keep: shots oldest first carry
      scores and indices that never fall, each at most one below the live
      score and index; the resolved hits are in the same order, at most one
      below the live index, and none is later than a shot still pending. */
  predicate Mono(s: AState)
  {
    && (forall i, j :: 0 <= i < j < |s.pendingHits| ==>
          s.pendingHits[i].score <= s.pendingHits[j].score && s.pendingHits[i].question <= s.pendingHits[j].question)
    && (forall h :: h in s.pendingHits ==>
          h.score <= s.score <= h.score + 1 && h.question <= s.currentQuestion <= h.question + 1)
    && (forall i, j :: 0 <= i < j < |s.pendingOutcomes| ==>
          s.pendingOutcomes[i].question <= s.pendingOutcomes[j].question)
    && (forall o :: o in s.pendingOutcomes ==> o.question <= s.currentQuestion <= o.question + 1)
    && (forall o, h :: o in s.pendingOutcomes && h in s.pendingHits ==> o.question <= h.question)
  }

  lemma InitialMono(questions: seq<MathQuestion>)
    ensures Mono(Initial(questions))
  {
  }

  /** A shot records the live score and index, which no pending shot or
      resolved hit exceeds. */
  lemma ShootMono(s: AState, questions: seq<MathQuestion>, plane: Plane, now: int)
    requires Consistent(s, questions) && plane in s.planes && Mono(s)
    ensures Mono(Shoot(s, questions, plane, now))
  {
    var r := Shoot(s, questions, plane, now);
    if s.shotPlane.None? {
      assert r.pendingHits[|s.pendingHits|] == Shot(plane, s.score, s.currentQuestion);
      assert forall h :: h in r.pendingHits ==> h in s.pendingHits || h == Shot(plane, s.score, s.currentQuestion);
    }
  }

  /** The first phase sets the score to one above the oldest shot's, which
      is the live score or one below it, so the score does not fall; the
      outcome it queues is no later than the shots left. */
  lemma {:induction false} HitMono(s: AState, questions: seq<MathQuestion>)
    requires Consistent(s, questions) && |s.pendingHits| > 0 && Mono(s)
    ensures var r := ResolveHit(s, questions);
            Mono(r) && s.score <= r.score && r.currentQuestion == s.currentQuestion
  {
    var shot := s.pendingHits[0];
    var r := ResolveHit(s, questions);
    assert shot in s.pendingHits;
    assert forall h :: h in r.pendingHits ==> h in s.pendingHits && shot.score <= h.score && shot.question <= h.question by {
      forall h | h in r.pendingHits
        ensures h in s.pendingHits && shot.score <= h.score && shot.question <= h.question
      {
        var k :| 0 <= k < |r.pendingHits| && r.pendingHits[k] == h;
        assert h == s.pendingHits[k + 1];
      }
    }
    var o := Outcome(shot.plane.isCorrect, shot.question);
    assert forall x :: x in r.pendingOutcomes ==> x in s.pendingOutcomes || x == o;
    assert forall i :: 0 <= i < |s.pendingOutcomes| ==> s.pendingOutcomes[i] in s.pendingOutcomes;
  }

  /** The second phase moves to the question after the resolved one,
      which is the live index or the next, and what is left pending is no
      earlier than the resolved hit. */
  lemma {:induction false} AfterMono(s: AState, questions: seq<MathQuestion>)
    requires Consistent(s, questions) && |s.pendingOutcomes| > 0 && Mono(s)
    ensures var r := AfterHit(s, questions);
            Mono(r) && r.score == s.score && s.currentQuestion <= r.currentQuestion
  {
    var o := s.pendingOutcomes[0];
    var r := AfterHit(s, questions);
    assert o in s.pendingOutcomes;
    assert forall x :: x in r.pendingOutcomes ==> x in s.pendingOutcomes && o.question <= x.question by {
      forall x | x in r.pendingOutcomes
        ensures x in s.pendingOutcomes && o.question <= x.question
      {
        var k :| 0 <= k < |r.pendingOutcomes| && r.pendingOutcomes[k] == x;
        assert x == s.pendingOutcomes[k + 1];
      }
    }
  }

  lemma StepMono(s: AState, questions: seq<MathQuestion>, e: Event)
    requires Consistent(s, questions) && Mono(s)
    ensures var r := Step(s, questions, e);
            Mono(r) && s.score <= r.score && s.currentQuestion <= r.currentQuestion
  {
    match e
    case Tick =>
    case ShootAt(slot, now) =>
      if !s.showResult && slot < |s.planes| {
        ShootMono(s, questions, s.planes[slot], now);
      }
    case HitFires =>
      if |s.pendingHits| > 0 {
        HitMono(s, questions);
      }
    case AfterHitFires =>
      if |s.pendingOutcomes| > 0 {
        AfterMono(s, questions);
      }
  }

  /** Although each callback reads the score and index of the render that
      scheduled it, neither the score nor the question index ever falls
      in a session. */
  lemma {:induction false} RunMono(s: AState, questions: seq<MathQuestion>, events: seq<Event>)
    requires Consistent(s, questions) && Mono(s)
    ensures var r := Run(s, questions, events);
            Mono(r) && s.score <= r.score && s.currentQuestion <= r.currentQuestion
    decreases |events|
  {
    if events != [] {
      StepMono(s, questions, events[0]);
      RunMono(Step(s, questions, events[0]), questions, events[1..]);
    }
  }

  lemma {:induction false} RunAppend(s: AState, questions: seq<MathQuestion>, a: seq<Event>, b: seq<Event>)
    requires Consistent(s, questions)
    ensures Run(s, questions, a + b) == Run(Run(s, questions, a), questions, b)
    decreases |a|
  {
    if a != [] {
      assert (a + b)[0] == a[0] && (a + b)[1..] == a[1..] + b;
      RunAppend(Step(s, questions, a[0]), questions, a[1..], b);
    } else {
      assert a + b == b;
    }
  }

  /** From mounting, a later point of a session never shows a lower score
      or an earlier question than an earlier point. */
  lemma ScoreAndIndexNeverFall(questions: seq<MathQuestion>, a: seq<Event>, b: seq<Event>)
    ensures var s := Run(Initial(questions), questions, a);
            var r := Run(Initial(questions), questions, a + b);
            s.score <= r.score && s.currentQuestion <= r.currentQuestion
  {
    var s0 := Initial(questions);
    InitialConsistent(questions);
    InitialMono(questions);
    RunMono(s0, questions, a);
    RunMono(Run(s0, questions, a), questions, b);
    RunAppend(s0, questions, a, b);
  }

  /** The result screen is not final and the score can pass the number of
      questions: with one question whose options are the answer and
      another value, a click on the wrong plane and then on the correct one
      inside the 500 ms window are both accepted; after both first phases
      the wrong plane's second phase clears the mark, so the correct plane
      can be shot again; the first correct second phase shows the result,
      and the new shot's first phase, which fires after it, sets the score
      to 2. */
  lemma ScoreExceedsQuestionCount(q: MathQuestion, other: int)
    requires q.options == [q.answer, other] && other != q.answer
    ensures var qs := [q];
            var s0 := Initial(qs);
            var s1 := Shoot(s0, qs, s0.planes[1], 0);
            var s2 := Shoot(s1, qs, s0.planes[0], 1);
            var s3 := ResolveHit(s2, qs);
            var s4 := ResolveHit(s3, qs);
            var s5 := AfterHit(s4, qs);
            var s6 := Shoot(s5, qs, s0.planes[0], 2);
            var s7 := AfterHit(s6, qs);
            var s8 := ResolveHit(s7, qs);
            && !s5.showResult && s7.showResult && s8.showResult
            && s8.score == 2 > |qs|
  {
    var qs := [q];
    var s0 := Initial(qs);
    InitialConsistent(qs);
    var p0 := s0.planes[0];
    var p1 := s0.planes[1];
    assert p0.isCorrect && !p1.isCorrect;
    assert p0 in s0.planes && p1 in s0.planes;
    var s1 := Shoot(s0, qs, p1, 0);
    var s2 := Shoot(s1, qs, p0, 1);
    assert s2.pendingHits == [Shot(p1, 0, 0), Shot(p0, 0, 0)];
    var s3 := ResolveHit(s2, qs);
    assert s3.score == 0 && s3.pendingOutcomes == [Outcome(false, 0)];
    var s4 := ResolveHit(s3, qs);
    assert s4.score == 1 && s4.pendingOutcomes == [Outcome(false, 0), Outcome(true, 0)];
    var s5 := AfterHit(s4, qs);
    assert s5.shotPlane.None? && s5.pendingOutcomes == [Outcome(true, 0)] && s5.planes == s0.planes;
    var s6 := Shoot(s5, qs, p0, 2);
    assert s6.pendingHits == [Shot(p0, 1, 0)];
    var s7 := AfterHit(s6, qs);
    assert s7.showResult && s7.pendingHits == [Shot(p0, 1, 0)];
  }

  /** The mark comes too late to lock out a second click, but the score
      does not double: two clicks on the correct plane inside the 500 ms
      window are both accepted and fire two bullets, and both callbacks
      set the score to the same value, one above the score at the clicks. */
  lemma DoubleShotScoresOnce(s: AState, questions: seq<MathQuestion>, plane: Plane, t1: int, t2: int)
    requires Consistent(s, questions) && s.shotPlane.None? && s.pendingHits == []
    requires plane in s.planes && plane.isCorrect
    ensures var s1 := Shoot(s, questions, plane, t1);
            var s2 := Shoot(s1, questions, plane, t2);
            var s3 := ResolveHit(s2, questions);
            var s4 := ResolveHit(s3, questions);
            && |s2.bullets| == |s.bullets| + 2
            && s4.score == s.score + 1
            && s4.pendingOutcomes == s.pendingOutcomes + [Outcome(true, s.currentQuestion), Outcome(true, s.currentQuestion)]
  {
    var s1 := Shoot(s, questions, plane, t1);
    var s2 := Shoot(s1, questions, plane, t2);
    assert s2.pendingHits == [Shot(plane, s.score, s.currentQuestion), Shot(plane, s.score, s.currentQuestion)];
  }

  /** When the answer is among the options, some plane of the question
      carries it and is the correct one; every correct plane carries it. */
  lemma CorrectPlaneShown(index: nat, q: MathQuestion)
    requires q.answer in q.options
    ensures exists p :: p in CreatePlanes(index, q) && p.isCorrect
    ensures forall p :: p in CreatePlanes(index, q) && p.isCorrect ==> p.answer == q.answer
  {
    var ps := CreatePlanes(index, q);
    var i :| 0 <= i < |q.options| && q.options[i] == q.answer;
    assert ps[i] in ps && ps[i].isCorrect;
  }

  /** One undisturbed round on the correct plane of a question that is not
      the last: after both phases the next question is shown with its
      planes, the score is one higher, and no bullet and no mark remain. */
  lemma CorrectShotAdvances(s: AState, questions: seq<MathQuestion>, plane: Plane, now: int)
    requires Consistent(s, questions) && s.shotPlane.None?
    requires s.pendingHits == [] && s.pendingOutcomes == []
    requires plane in s.planes && plane.isCorrect && HasNext(questions, s.currentQuestion)
    ensures var s1 := Shoot(s, questions, plane, now);
            var s2 := ResolveHit(s1, questions);
            var s3 := AfterHit(s2, questions);
            && s3.currentQuestion == s.currentQuestion + 1
            && s3.score == s.score + 1
            && s3.planes == CreatePlanes(s.currentQuestion + 1, questions[s.currentQuestion + 1])
            && s3.bullets == [] && s3.shotPlane.None?
            && s3.pendingHits == [] && s3.pendingOutcomes == []
  {
    var s1 := Shoot(s, questions, plane, now);
    assert s1.pendingHits == [Shot(plane, s.score, s.currentQuestion)];
    var s2 := ResolveHit(s1, questions);
    assert s2.pendingOutcomes == [Outcome(true, s.currentQuestion)];
  }

  /** The component: its state fields, the bullet tick, the shot handler
      and its two delayed phases. */
  class AirplaneGame {
    const questions: seq<MathQuestion>
    var currentQuestion: nat
    var planes: seq<Plane>
    var score: nat
    var showResult: bool
    var shotPlane: Option<PlaneId>
    var bullets: seq<Bullet>
    var pendingHits: seq<Shot>
    var pendingOutcomes: seq<Outcome>

    function State(): AState
      reads this
    {
      AState(currentQuestion, planes, score, showResult, shotPlane, bullets, pendingHits, pendingOutcomes)
    }

    predicate Valid()
      reads this
    {
      Consistent(State(), questions)
    }

    /** Mounting, with the planes effect for question 0 (which does nothing
        when there is no question). */
    constructor (questions: seq<MathQuestion>)
      ensures State() == Initial(questions) && this.questions == questions
      ensures Valid()
    {
      this.questions := questions;
      currentQuestion := 0;
      planes := PlanesFor(questions, 0);
      score := 0;
      showResult := false;
      shotPlane := None;
      bullets := [];
      pendingHits := [];
      pendingOutcomes := [];
    }

    method OnBulletTick()
      requires Valid()
      modifies this
      ensures State() == BulletTick(old(State()), questions)
      ensures Valid()
    {
      bullets := TickBullets(bullets);
    }

    method HandleShoot(plane: Plane, now: int)
      requires Valid() && plane in planes
      modifies this
      ensures State() == Shoot(old(State()), questions, plane, now)
      ensures Valid()
    {
      if shotPlane.Some? {
        return;
      }
      bullets := bullets + [Bullet(now, BulletStartX, BulletY)];
      pendingHits := pendingHits + [Shot(plane, score, currentQuestion)];
    }

    method OnHitTimeout()
      requires Valid() && |pendingHits| > 0
      modifies this
      ensures State() == ResolveHit(old(State()), questions)
      ensures Valid()
    {
      var shot := pendingHits[0];
      pendingHits := pendingHits[1..];
      shotPlane := Some(shot.plane.id);
      if shot.plane.isCorrect {
        score := shot.score + 1;
      }
      pendingOutcomes := pendingOutcomes + [Outcome(shot.plane.isCorrect, shot.question)];
    }

    method OnAfterHitTimeout()
      requires Valid() && |pendingOutcomes| > 0
      modifies this
      ensures State() == AfterHit(old(State()), questions)
      ensures Valid()
    {
      var outcome := pendingOutcomes[0];
      pendingOutcomes := pendingOutcomes[1..];
      if outcome.correct {
        if outcome.question + 1 < |questions| {
          currentQuestion := outcome.question + 1;
          shotPlane := None;
          bullets := [];
          planes := CreatePlanes(currentQuestion, questions[currentQuestion]);
        } else {
          showResult := true;
        }
      } else {
        shotPlane := None;
      }
    }
  }
}
