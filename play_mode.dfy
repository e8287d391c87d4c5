/**
  The dialogue overlay of the play mode as the object the frame loop drives:
  the constructor builds the decision table and shows node 0, a key-down
  event may follow an option, a frame advances the typewriter, and drawing
  selects the texts handed to the text renderer and where they go.
*/
module Play {
  import opened Dialogue

  /** One call of the text renderer: the text and its pixel position. */
  datatype TextRequest = TextRequest(text: string, x: int, y: int)

  /** Where the message is drawn, and where the first option goes; each further option is `OptionStep` lower. */
  const MessageX: int := 100
  const MessageY: int := 600
  const FirstOptionY: int := 300
  const OptionStep: int := 100

  class PlayMode {
    /** The decision nodes, filled once by the constructor. */
    const decisions: seq<Decision>
    /** Copies of the shown node's message and options. */
    var currentMessage: string
    var currentOptions: seq<Choice>
    /** How many characters of the message have been revealed. */
    var currentMessageIdx: nat
    /** Milliseconds accumulated towards the next character. */
    var typeTimer: nat

    /** The dialogue state these fields hold. */
    function State(): DialogueState
      reads this
    {
      DialogueState(currentMessage, currentOptions, currentMessageIdx, typeTimer)
    }

    /** The table is well formed, the shown pair is some node's, the reveal is within the message. */
    ghost predicate Valid()
      reads this
    {
      WellFormed(decisions) && Consistent(decisions, State())
    }

    /** Builds the story table and shows node 0 with nothing revealed. */
    constructor ()
      ensures Valid()
      ensures decisions == StoryTable()
      ensures State() == Start(decisions)
    {
      var table := StoryTable();
      decisions := table;
      currentOptions := table[0].options;
      currentMessage := table[0].message;
      currentMessageIdx := 0;
      typeTimer := 0;
      new;
      assert IsNode(decisions, currentMessage, currentOptions, 0);
    }

    /** A key-down event: w, s and x follow the first, second and third option when the
        shown node has that many; escape and a are handled without touching the dialogue. */
    method HandleKeyDown(key: Key) returns (handled: bool)
      requires Valid()
      modifies this
      ensures Valid()
      ensures handled <==> !key.Other?
      ensures State() == Press(decisions, old(State()), key)
    {
      ShownTargetsValid(decisions, currentMessage, currentOptions);
      PressKeepsConsistent(decisions, State(), key);
      if key == Escape {
        handled := true;
      } else if key == KeyA {
        handled := true;
      } else if key == KeyX {
        if |currentOptions| > 2 {
          currentMessage := decisions[currentOptions[2].target].message;
          currentOptions := decisions[currentOptions[2].target].options;
          currentMessageIdx := 0;
        }
        handled := true;
      } else if key == KeyW {
        if |currentOptions| > 0 {
          currentMessage := decisions[currentOptions[0].target].message;
          currentOptions := decisions[currentOptions[0].target].options;
          currentMessageIdx := 0;
        }
        handled := true;
      } else if key == KeyS {
        if |currentOptions| > 1 {
          currentMessage := decisions[currentOptions[1].target].message;
          currentOptions := decisions[currentOptions[1].target].options;
          currentMessageIdx := 0;
        }
        handled := true;
      } else {
        handled := false;
      }
    }

    /** One frame of `elapsed` milliseconds: while the message is not fully revealed the
        timer accumulates, and reaching the threshold reveals one character and resets it. */
    method Update(elapsed: nat)
      requires Valid()
      modifies this
      ensures Valid()
      ensures State() == Tick(old(State()), elapsed)
    {
      TickKeepsConsistent(decisions, State(), elapsed);
      if currentMessageIdx < |currentMessage| {
        typeTimer := typeTimer + elapsed;
        if typeTimer >= TypeSpeed {
          typeTimer := 0;
          currentMessageIdx := currentMessageIdx + 1;
        }
      }
    }

    /** The texts drawn this frame, in order: the revealed part of the message, which is one
        character ahead of the reveal index, and, once the whole message is revealed, the
        options one below the other. */
    method Draw() returns (requests: seq<TextRequest>)
      ensures |requests| == 1 + if currentMessageIdx == |currentMessage| then |currentOptions| else 0
      ensures requests[0].x == MessageX && requests[0].y == MessageY
      ensures |requests[0].text| == if currentMessageIdx + 1 <= |currentMessage| then currentMessageIdx + 1 else |currentMessage|
      ensures requests[0].text <= currentMessage
      ensures forall i :: 0 <= i < |requests| - 1 ==>
        requests[i + 1] == TextRequest(currentOptions[i].caption, MessageX, FirstOptionY - OptionStep * i)
    {
      var shown := if currentMessageIdx + 1 <= |currentMessage| then currentMessageIdx + 1 else |currentMessage|;
      requests := [TextRequest(currentMessage[..shown], MessageX, MessageY)];
      var currentHeight := FirstOptionY;
      if currentMessageIdx == |currentMessage| {
        var i := 0;
        while i < |currentOptions|
          invariant 0 <= i <= |currentOptions|
          invariant currentHeight == FirstOptionY - OptionStep * i
          invariant |requests| == 1 + i
          invariant requests[0] == TextRequest(currentMessage[..shown], MessageX, MessageY)
          invariant forall j :: 0 <= j < i ==>
            requests[j + 1] == TextRequest(currentOptions[j].caption, MessageX, FirstOptionY - OptionStep * j)
        {
          requests := requests + [TextRequest(currentOptions[i].caption, MessageX, currentHeight)];
          currentHeight := currentHeight - OptionStep;
          i := i + 1;
        }
      }
    }
  }
}
