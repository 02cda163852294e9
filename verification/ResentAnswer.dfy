/**
 A run that shows the machinery at work: a server answers a Put, crashes before it could save,
 starts again, replays the entry and answers a second time; the client hears both answers
 and completes its call once.
 */
module ResentAnswer {
  import opened Wrappers
  import opened Commands
  import opened ClientModel
  import opened History
  import opened Cluster
  import opened Storage
  import Replica

  const PUT := Put("k", "v")
  const ENTRY := Command(7, 0, 0, PUT)

  function Asked(): seq<Move> {
    [ServerStep(0, Replica.Recover(true, 0)), Call(0, ApiPut("k", "v"), true, 1), Arrive(Request(0, 0, PUT), 7), Decide(ENTRY)]
  }

  function Walk(): seq<Move> {
    [ServerStep(0, Replica.Begin), ServerStep(0, Replica.ApplyEntry), ServerStep(0, Replica.SendAnswer)]
  }

  function CrashAndStart(): seq<Move> {
    [ServerStep(0, Replica.Crash(Garble(None, None))), ServerStep(0, Replica.Recover(true, 1))]
  }

  function Heard(): seq<Move> {
    [Answered(0, 0, 2), Answered(0, 1, 3)]
  }

  function Mover(): (State, Move) -> State {
    (t, m) => Do(1, t, m)
  }

  lemma {:induction false} RunMoves(moves: seq<Move>)
    ensures Run(1, 1, moves) == Fold(Mover(), Init(1), moves)
  {
    if moves != [] {
      RunMoves(moves[..|moves| - 1]);
    }
  }

  const CALL := Invoke(0, ApiPut("k", "v"))
  const WAITING := Client(1, [RequestData(1, true, None)], 0, map[0 := 0], map[], true, Running, [Issue(0, ApiPut("k", "v"))])
  const BOOTED := Replica.Node(true, 0, 0, 0, 0, map[], Replica.Idle, Disk(None, None), [], 0)
  const SENT := Replica.Sent(1, 7, Write(0))

  /** The entry is decided; the server is at `node`, the client still waits. */
  function Waiting(node: Replica.Node): State {
    State([ENTRY], [node], [WAITING], {}, {}, [CALL], [Mark(0, 0)])
  }

  lemma CallState(s: State)
    requires s == State([], [BOOTED], [ClientModel.INIT], {}, {}, [], [])
    ensures Do(1, s, Call(0, ApiPut("k", "v"), true, 1)) ==
            s.(clients := [WAITING], requests := {Request(0, 0, PUT)}, history := [CALL], marks := [Mark(0, 0)])
  {
    var invoked := Invoked(s, 0, ApiPut("k", "v"));
    assert invoked.history == [CALL] && invoked.marks == [Mark(0, 0)];
    var a := Accept(0, ApiPut("k", "v"), true, 1);
    var sent := StepSend(ClientModel.INIT, 0, ApiPut("k", "v"), 1).0;
    assert sent.pendingPuts == WAITING.pendingPuts && sent.requestData == WAITING.requestData && sent.issued == WAITING.issued;
    assert ClientModel.Step(ClientModel.INIT, a) == (WAITING, Effect(None, Some((0, PUT))));
    assert ClientActs(invoked, 0, a, 0).requests == {Request(0, 0, PUT)};
    assert [CALL] + [] == [CALL];
  }

  lemma AskedState()
    ensures Fold(Mover(), Init(1), Asked()) == Waiting(BOOTED)
  {
    var f, a := Mover(), Asked();
    var s1 := State([], [BOOTED], [ClientModel.INIT], {}, {}, [], []);
    assert Init(1) == State([], [Replica.INIT], [ClientModel.INIT], {}, {}, [], []);
    assert f(Init(1), a[0]) == s1;
    CallState(s1);
    var s2 := f(s1, a[1]);
    var s3 := s2.(requests := {}, proposals := {ENTRY});
    assert f(s2, a[2]) == s3;
    assert f(s3, a[3]) == Waiting(BOOTED);
    FoldThree(f, Init(1), a[0], a[1], a[2]);
    FoldSnoc(f, Init(1), [a[0], a[1], a[2]], a[3]);
    assert a == [a[0], a[1], a[2]] + [a[3]];
  }

  /** Having answered position 1 without having saved. */
  function Replied(node: Replica.Node): Replica.Node {
    node.(current := 1, db := map["k" := "v"], phase := Replica.Applying(0, 1, 1), answers := node.answers + [SENT])
  }

  lemma WalkState(node: Replica.Node)
    requires node.up && node.current == 0 && node.snapshotIdx == 0 && node.learned == 1 && node.db == map[] && node.phase.Idle?
    ensures Fold(Mover(), Waiting(node), Walk()) == Waiting(Replied(node))
  {
    var f, w := Mover(), Walk();
    FoldThree(f, Waiting(node), w[0], w[1], w[2]);
    var begun := node.(phase := Replica.Applying(0, 0, 0), current := 1);
    var applied := begun.(db := map["k" := "v"], phase := Replica.Replying(0, 0, 1, None));
    assert Replica.Next(1, 0, [ENTRY], node, Replica.Begin) == begun;
    assert Replica.Next(1, 0, [ENTRY], begun, Replica.ApplyEntry) == applied;
    assert Replica.Next(1, 0, [ENTRY], applied, Replica.SendAnswer) == Replied(node);
    assert f(Waiting(node), w[0]) == Waiting(begun);
    assert f(Waiting(begun), w[1]) == Waiting(applied);
    assert f(Waiting(applied), w[2]) == Waiting(Replied(node));
  }

  /** Started again: nothing was saved, one answer had gone out. */
  const AGAIN := Replica.Node(true, 0, 0, 0, 1, map[], Replica.Idle, Disk(None, None), [SENT], 1)

  lemma CrashState(node: Replica.Node)
    requires node.up && node.disk == Disk(None, None) && node.answers == [SENT]
    ensures Fold(Mover(), Waiting(node), CrashAndStart()) == Waiting(AGAIN)
  {
    var f, m := Mover(), CrashAndStart();
    FoldTwo(f, Waiting(node), m[0], m[1]);
    var down := node.(up := false, phase := Replica.Idle);
    assert f(Waiting(node), m[0]) == Waiting(down);
    assert f(Waiting(down), m[1]) == Waiting(AGAIN);
  }

  lemma HeardState(node: Replica.Node)
    requires node.answers == [SENT, SENT]
    ensures var after := Fold(Mover(), Waiting(node), Heard());
            && after.history == [CALL, Respond(0, Answer("Ok"))]
            && |after.clients| == 1 && after.clients[0].responseCount == 2 && after.nodes == [node]
  {
    var f, m := Mover(), Heard();
    FoldTwo(f, Waiting(node), m[0], m[1]);
    var once := WAITING.(pendingPuts := map[], requestData := [RequestData(1, true, Some(2))], responseCount := 1);
    var received := StepReceive(WAITING, Write(0), 2).0;
    assert received.pendingPuts == map[] && received.requestData == once.requestData;
    assert ClientModel.Step(WAITING, Receive(Write(0), 2)) == (once, Effect(Some((0, Answer("Ok"))), None));
    var s1 := f(Waiting(node), m[0]);
    assert s1.history == [CALL, Respond(0, Answer("Ok"))] && s1.clients == [once] && s1.nodes == [node];
    assert f(s1, m[1]).history == s1.history + [];
  }

  const LEARN := ServerStep(0, Replica.Learn(1))

  lemma LearnState()
    ensures Fold(Mover(), Waiting(BOOTED), [LEARN]) == Waiting(BOOTED.(learned := 1))
  {
    var f := Mover();
    FoldSnoc(f, Waiting(BOOTED), [], LEARN);
    assert [] + [LEARN] == [LEARN];
    assert f(Waiting(BOOTED), LEARN) == Waiting(BOOTED.(learned := 1));
  }

  function Story(): seq<Move> {
    Asked() + [LEARN] + Walk() + CrashAndStart() + Walk() + Heard()
  }

  /** The answer sent twice, a crash between, is heard twice and completes the call once. */
  lemma ResentAnswerHarmless()
    ensures var s := Run(1, 1, Story());
            && |s.nodes| == |s.clients| == 1
            && s.nodes[0].answers == [SENT, SENT]
            && s.history == [CALL, Respond(0, Answer("Ok"))]
            && s.clients[0].responseCount == 2
  {
    hide Walk, CrashAndStart, Heard, Asked, Mover, Do;
    var f, known := Mover(), BOOTED.(learned := 1);
    RunMoves(Story());
    AskedState();
    LearnState();
    FoldAppend(f, Init(1), Asked(), [LEARN]);
    FoldAppend(f, Init(1), Asked() + [LEARN], Walk());
    WalkState(known);
    FoldAppend(f, Init(1), Asked() + [LEARN] + Walk(), CrashAndStart());
    CrashState(Replied(known));
    FoldAppend(f, Init(1), Asked() + [LEARN] + Walk() + CrashAndStart(), Walk());
    WalkState(AGAIN);
    FoldAppend(f, Init(1), Asked() + [LEARN] + Walk() + CrashAndStart() + Walk(), Heard());
    HeardState(Replied(AGAIN));
  }
}
