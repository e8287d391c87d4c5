/**
  The branching dialogue of the play mode, as values: the fixed table of
  decision nodes, the state that is shown (a copy of one node's message and
  options, the typewriter reveal index and its timer), and the two
  transitions the frame loop applies to it: a choice key, and elapsed time.
  The class Play.PlayMode performs these transitions in place; the functions
  here are their specification.
*/
module Dialogue {
  import opened Wrappers

  /** One option of a node: the caption drawn on screen and the index of the node it leads to. */
  datatype Choice = Choice(caption: string, target: int)

  /** A decision node: the message typed out on screen and its ordered options. */
  datatype Decision = Decision(message: string, options: seq<Choice>)

  /** What the play mode holds: the current message and options, the number of
      characters revealed so far and the typing timer (in milliseconds). */
  datatype DialogueState = DialogueState(message: string, options: seq<Choice>, idx: nat, timer: nat)

  /** The keys whose key-down event the play mode handles; every other key is `Other`. */
  datatype Key = Escape | KeyA | KeyX | KeyW | KeyS | Other(code: int)

  /** Time per revealed character: 0.01 s, in milliseconds. */
  const TypeSpeed: nat := 10

  /** Every option of `options` leads to a node of `table`. */
  predicate TargetsValid(table: seq<Decision>, options: seq<Choice>)
  {
    forall i :: 0 <= i < |options| ==> 0 <= options[i].target < |table|
  }

  /** A table is well formed when every node offers at least one option
      and every option leads to a node of the table. */
  predicate WellFormed(table: seq<Decision>)
  {
    forall j :: 0 <= j < |table| ==> |table[j].options| > 0 && TargetsValid(table, table[j].options)
  }

  /** The shown message and options are a copy of node `j` of the table. */
  predicate IsNode(table: seq<Decision>, message: string, options: seq<Choice>, j: int)
  {
    0 <= j < |table| && table[j] == Decision(message, options)
  }

  /** The shown message and options are a copy of some node of the table. */
  ghost predicate OnSomeNode(table: seq<Decision>, message: string, options: seq<Choice>)
  {
    exists j :: IsNode(table, message, options, j)
  }

  /** The invariant of the play mode: the shown pair is some node's pair and
      the reveal index does not run past the message. */
  ghost predicate Consistent(table: seq<Decision>, s: DialogueState)
  {
    OnSomeNode(table, s.message, s.options) && s.idx <= |s.message|
  }

  /** The messages of the ten nodes of the story. */
  const Message0: string :=
    "YOU AND YOUR THREE COMPANIONS HAVE SHARPENED YOUR SWORDS AND TIGHTENED YOUR\n ARMOR. YOU STAND AT THE ENTRANCE OF THE CAVE HEADING INTO THE MOUNTAIN WHERE\n THE DRAGON LIES. "
    + "THE TUNNEL BEFORE YOU HAS TWO BRANCHES:\n RIGHT, HEADING UP TOWARD THE PEAK OF THE MOUNTAIN; AND LEFT, CURVING DOWN\n INTO ITS DEPTHS."
  const Message1: string :=
    "ON THE LEFT PATH, YOU ALL BLUSTER AND JOKE FOR A FEW MINUTES\n, BUT SOON FALL INTO SILENCE, CONCIOUS OF THE STONE ACCUMULATING ABOVE YOU.\n AFTER CONTINUING FOR SOME TIME, SLOWLY BUT STEADILY MAKING YOUR WAY DOWN,\n THE TUNNEL DROPS AWAY TO REVEAL A DARK PIT ABOUT 15 FEET ACROSS.\n"
    + "AFTER SPENDING A FEW MINUTES DISCUSSING YOUR OPTIONS, THE PARTY DECIDES TO:"
  const Message2: string :=
    "YOU ALL DECIDE THAT A DRAGON WOULD PROBABLY WANT TO BE\n CLOSER TO THE TOP OF THE MOUNTAIN SO IT COULD FLY, AND\n BEGIN FOLLOWING THE PATH TO THE RIGHT. THE TUNNEL\n TWISTS AND TURNS, AND AT EACH INTERSECTION YOU CHOOSE\n THE PATH HEADING FURTHER UP.\n"
    + "DON'T YOU THINK YOU'VE SEEN THIS TUNNEL BEFORE?"
  const Message3: string :=
    "HAVING DECIDED ON THE MORE ADVENTUROUS OPTION, YOU\n TIE THE ROPE TO THE BOULDER AND WATCH AS THE FIRST\n PERSON STARTS BACKING TOWARD THE PIT,\n FEEDING THE ROPE THROUGH THEIR HANDS.\n"
    + "YOU'RE STRUCK BY A SUDDEN, OVERWHELMING FEELING."
  const Message4: string :=
    "YOU STOP MOVING; THE OTHERS NOTICE AND TURN.\n"
    + "DON'T YOU THINK, YOU SAY SLOWLY, THAT WE'VE TAKEN A WRONG TURN SOMEWHERE?\n"
    + "TO YOUR SURPRISE, THE AGREE WITHOUT HESITATION.\n"
  const Message5: string :=
    "AS THE OTHER TWO LEAN OVER THE EDGE, CALLING ENCOURAGEMENT\n TO THE CLIMBER, YOU SLOWLY DRAW YOUR SWORD FROM ITS SHEATH\n AND REST THE BLADE LIGHTLY AGAINST THE TAUT ROPE. DO YOU\n EVEN KNOW THEM? DO THEY MATTER TO YOU AT ALL, HERE\n UNDERNEATH THE DIRT AND STONE?"
  const Message6: string :=
    "THEY GASP AS THEY FALL, BUT DON'T SCREAM. THE OTHERS\n STARE INTO THE DARK PIT, FROZEN, UNTIL THE IMPACT ECHOES\n FROM FAR BELOW.\n"
    + "THEY TURN TO YOU AND DRAW THEIR SWORDS."
  const Message7: string :=
    "YOU CARRY ON, THE ONLY SOUND THE CLINK OF YOUR EQUIPMENT.\n THE TUNNELS WIND UP, THEN DOWN, PETERING INTO TIGHT\n PASSAGES THAT WIDEN JUST WHEN YOU'RE\n SURE YOU CAN GO NO FURTHER.\n"
  const Message8: string :=
    "THE DRAGON YAWNS, AND SETTLES ITSELF MORE COMFORTABLY.\n IT'S A GOOD DAY WHEN ONE'S HOARD GROWS BY FOUR.\n"
  const Message9: string :=
    "NO, YOU MUST BE MISTAKEN. THIS MOUNTAIN CAN'T BE BIG ENOUGH\n FOR A MAZE OF THIS SIZE; YOU MUST STILL BE ON THE ONLY VIABLE PATH."

  /** The ten nodes of the story, in the order the play mode's constructor pushes them. */
  function StoryTable(): (t: seq<Decision>)
    ensures |t| == 10
    ensures WellFormed(t)
  {
    [ Decision(Message0, [Choice("GO LEFT", 1), Choice("GO RIGHT", 2)]),
      Decision(Message1, [Choice("TIE YOUR ROPE TO A BOULDER AND USE IT TO CLIMB DOWN THE PIT.", 3),
                         Choice("DOUBLE BACK AND TAKE THE OTHER PATH.", 2)]),
      Decision(Message2, [Choice("ASK THE PARTY", 4), Choice("KEEP GOING", 9)]),
      Decision(Message3, [Choice("CUT THE ROPE", 5), Choice("THIS ISNT A GOOD IDEA", 4)]),
      Decision(Message4, [Choice("YOU TRACE YOUR WAY BACK TO WHERE FAINT TRACES OF DAYLIGHT STILL SEEP INTO THE DARK TUNNELS", 0)]),
      Decision(Message5, [Choice("YOU CUT THE ROPE", 6)]),
      Decision(Message6, [Choice("GAME OVER", 8)]),
      Decision(Message7, [Choice("GAME OVER", 8)]),
      Decision(Message8, [Choice("RESTART", 0)]),
      Decision(Message9, [Choice("YOU CONTINUE ON", 7), Choice("YOU SECOND GUESS YOURSELF", 4)])
    ]
  }

  /** The state the play mode starts in: node 0's message and options, nothing revealed. */
  function Start(table: seq<Decision>): (s: DialogueState)
    requires |table| > 0
    ensures IsNode(table, s.message, s.options, 0)
    ensures s.idx == 0 && s.timer == 0
  {
    DialogueState(table[0].message, table[0].options, 0, 0)
  }

  /** The option slot a key selects: w the first, s the second, x the third. */
  function Slot(key: Key): (k: Option<nat>)
    ensures k.Some? <==> key == KeyW || key == KeyS || key == KeyX
    ensures k.Some? ==> k.value < 3
    ensures key == KeyW ==> k == Some(0)
    ensures key == KeyS ==> k == Some(1)
    ensures key == KeyX ==> k == Some(2)
  {
    match key
    case KeyW => Some(0)
    case KeyS => Some(1)
    case KeyX => Some(2)
    case _ => None
  }

  /** The effect of a key-down event on the dialogue. */
  function Press(table: seq<Decision>, s: DialogueState, key: Key): (r: DialogueState)
    requires TargetsValid(table, s.options)
    ensures r.timer == s.timer
    ensures r == s || (r.idx == 0 && OnSomeNode(table, r.message, r.options))
  {
    match Slot(key)
    case Some(k) =>
      if |s.options| > k then
        var next := table[s.options[k].target];
        assert IsNode(table, next.message, next.options, s.options[k].target);
        s.(message := next.message, options := next.options, idx := 0)
      else s
    case None => s
  }

  /** The effect of one frame of `elapsed` milliseconds on the typewriter. */
  function Tick(s: DialogueState, elapsed: nat): (r: DialogueState)
    ensures r.message == s.message && r.options == s.options
    ensures r.idx == s.idx || r.idx == s.idx + 1
    ensures s.idx >= |s.message| ==> r == s
    ensures s.idx <= |s.message| ==> r.idx <= |r.message|
  {
    if s.idx < |s.message| then
      var t := s.timer + elapsed;
      if t >= TypeSpeed then s.(idx := s.idx + 1, timer := 0) else s.(timer := t)
    else s
  }

  /** The state after a sequence of frames, the first frame first. */
  function Frames(s: DialogueState, elapsed: seq<nat>): DialogueState
    decreases |elapsed|
  {
    if elapsed == [] then s else Frames(Tick(s, elapsed[0]), elapsed[1..])
  }

  /** A key selecting slot k moves to the node of option k when the node has one,
      resetting the reveal; any other key, or a slot beyond the options, changes nothing. */
  lemma PressCases(table: seq<Decision>, s: DialogueState, key: Key)
    requires TargetsValid(table, s.options)
    ensures Slot(key).None? ==> Press(table, s, key) == s
    ensures Slot(key).Some? && Slot(key).value >= |s.options| ==> Press(table, s, key) == s
    ensures Slot(key).Some? && Slot(key).value < |s.options| ==>
      var t := s.options[Slot(key).value].target;
      Press(table, s, key) == DialogueState(table[t].message, table[t].options, 0, s.timer)
  {
  }

  /** On a well-formed table, the options shown on some node lead to nodes of the table. */
  lemma {:induction false} ShownTargetsValid(table: seq<Decision>, message: string, options: seq<Choice>)
    requires WellFormed(table)
    requires OnSomeNode(table, message, options)
    ensures TargetsValid(table, options)
    ensures |options| > 0
  {
    var j :| IsNode(table, message, options, j);
    assert options == table[j].options;
  }

  /** Every key press keeps the play mode's invariant. */
  lemma PressKeepsConsistent(table: seq<Decision>, s: DialogueState, key: Key)
    requires WellFormed(table)
    requires Consistent(table, s)
    ensures TargetsValid(table, s.options)
    ensures Consistent(table, Press(table, s, key))
  {
    ShownTargetsValid(table, s.message, s.options);
  }

  /** Every frame keeps the play mode's invariant. */
  lemma TickKeepsConsistent(table: seq<Decision>, s: DialogueState, elapsed: nat)
    requires Consistent(table, s)
    ensures Consistent(table, Tick(s, elapsed))
  {
  }

  /** While the message is being revealed, the timer accumulates the elapsed time and is
      reset exactly when it reaches the threshold, which is exactly when a character is revealed. */
  lemma TickTimer(s: DialogueState, elapsed: nat)
    requires s.idx < |s.message|
    ensures Tick(s, elapsed).idx == s.idx + 1 <==> s.timer + elapsed >= TypeSpeed
    ensures Tick(s, elapsed).timer == if s.timer + elapsed >= TypeSpeed then 0 else s.timer + elapsed
  {
  }

  /** Frames reveal at most one character each and never change the message or the options. */
  lemma {:induction false} FramesRevealAtMostOnePerFrame(s: DialogueState, elapsed: seq<nat>)
    ensures Frames(s, elapsed).message == s.message && Frames(s, elapsed).options == s.options
    ensures s.idx <= Frames(s, elapsed).idx <= s.idx + |elapsed|
    decreases |elapsed|
  {
    if elapsed != [] {
      FramesRevealAtMostOnePerFrame(Tick(s, elapsed[0]), elapsed[1..]);
    }
  }

  /** Once the whole message is revealed, no number of frames changes anything, the timer included. */
  lemma {:induction false} FramesAfterReveal(s: DialogueState, elapsed: seq<nat>)
    requires s.idx == |s.message|
    ensures Frames(s, elapsed) == s
    decreases |elapsed|
  {
    if elapsed != [] {
      FramesAfterReveal(Tick(s, elapsed[0]), elapsed[1..]);
    }
  }

  /** When every frame lasts at least the threshold, each frame reveals one more
      character until the message is complete. */
  lemma {:induction false} FramesAtTypingSpeed(s: DialogueState, elapsed: seq<nat>)
    requires s.idx <= |s.message|
    requires forall i :: 0 <= i < |elapsed| ==> elapsed[i] >= TypeSpeed
    ensures Frames(s, elapsed).idx == if s.idx + |elapsed| <= |s.message| then s.idx + |elapsed| else |s.message|
    decreases |elapsed|
  {
    if elapsed != [] {
      assert elapsed[0] >= TypeSpeed;
      FramesAtTypingSpeed(Tick(s, elapsed[0]), elapsed[1..]);
    }
  }

  /** A reveal resets the timer to 0, and the time past the threshold is lost: five frames of
      6 ms on a three-character message add up to three thresholds, yet reveal only two
      characters, though no single frame reaches the threshold. */
  lemma {:induction false} TypewriterDropsOverflow()
    ensures 5 * 6 == |"abc"| * TypeSpeed
    ensures Frames(DialogueState("abc", [], 0, 0), [6, 6, 6, 6, 6]).idx == 2
  {
    var s0 := DialogueState("abc", [], 0, 0);
    var s2 := DialogueState("abc", [], 1, 0);
    var s4 := DialogueState("abc", [], 2, 0);
    var s5 := DialogueState("abc", [], 2, 6);
    assert Tick(Tick(s0, 6), 6) == s2;
    assert Tick(Tick(s2, 6), 6) == s4;
    assert Tick(s4, 6) == s5;
    assert Frames(s5, []) == s5;
    assert Frames(s4, [6]) == s5;
    assert Frames(s2, [6, 6, 6]) == Frames(s4, [6]);
    assert Frames(s0, [6, 6, 6, 6, 6]) == Frames(s2, [6, 6, 6]);
  }

  /** Starting from node 0 of the story: w goes to node 1, s to node 2, and x,
      for which node 0 has no option, changes nothing. */
  lemma StoryStart()
    ensures Press(StoryTable(), Start(StoryTable()), KeyW) == Start(StoryTable()[1..])
    ensures Press(StoryTable(), Start(StoryTable()), KeyS) == Start(StoryTable()[2..])
    ensures Press(StoryTable(), Start(StoryTable()), KeyX) == Start(StoryTable())
  {
  }
}
