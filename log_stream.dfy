/** What the two log streamers (src/components/BuildLogViewer.ts and
    src/vstsbuildlog.ts) share: the output channel as a log of what was done to it,
    and the cursor arithmetic of one poll, `messages.splice(currentLogIndex)` followed
    by `currentLogIndex += newLogEntries.length`. */
module LogStream {
  import JsArray

  const ChannelName := "VSTS Build Log"

  /** What happens to the output channel, in order. */
  datatype OutputEvent = ChannelCreated(name: string) | Cleared | Shown | Line(text: string)

  function Lines(ls: seq<string>): (r: seq<OutputEvent>)
    ensures |r| == |ls| && forall i :: 0 <= i < |ls| ==> r[i] == Line(ls[i])
  {
    seq(|ls|, i requires 0 <= i < |ls| => Line(ls[i]))
  }

  lemma LinesSnoc(ls: seq<string>, i: nat)
    requires i < |ls|
    ensures Lines(ls[..i + 1]) == Lines(ls[..i]) + [Line(ls[i])]
  {
  }

  /** The channel is created once, before anything else is done to it. */
  predicate CreatedOnceFirst(output: seq<OutputEvent>) {
    (|output| > 0 ==> output[0] == ChannelCreated(ChannelName))
    && forall i :: 0 < i < |output| ==> !output[i].ChannelCreated?
  }

  lemma CreatedOnceFirstGrows(output: seq<OutputEvent>, more: seq<OutputEvent>)
    requires CreatedOnceFirst(output) && |output| > 0
    requires forall i :: 0 <= i < |more| ==> !more[i].ChannelCreated?
    ensures CreatedOnceFirst(output + more)
  {
    forall i | 0 < i < |output + more| ensures !(output + more)[i].ChannelCreated? {
      if i >= |output| { assert (output + more)[i] == more[i - |output|]; }
    }
  }

  // ---------------------------------------------------------------------------
  // One poll

  /** The lines one poll appends: what `splice(index)` removes, the messages from the
      cursor on, and none when the list is not longer than the cursor. */
  function NewEntries(index: nat, messages: seq<string>): (r: seq<string>)
    ensures index <= |messages| ==> r == messages[index..]
    ensures index >= |messages| ==> r == []
  {
    messages[JsArray.SpliceStart(index, |messages|)..]
  }

  /** The cursor after the poll, moved on by the number of lines appended: it lands on
      the end of the list when it was inside it, and stays where it was otherwise. */
  function Advance(index: nat, messages: seq<string>): (r: nat)
    ensures index <= |messages| ==> r == |messages|
    ensures index >= |messages| ==> r == index
  {
    index + |NewEntries(index, messages)|
  }

  // ---------------------------------------------------------------------------
  // Successive polls of a build that has not completed

  /** The lines appended over successive polls that return `polls`, in order. */
  function Stream(index: nat, polls: seq<seq<string>>): seq<string>
    decreases |polls|
  {
    if |polls| == 0 then [] else NewEntries(index, polls[0]) + Stream(Advance(index, polls[0]), polls[1..])
  }

  /** The cursor after those polls. */
  function Cursor(index: nat, polls: seq<seq<string>>): nat
    decreases |polls|
  {
    if |polls| == 0 then index else Cursor(Advance(index, polls[0]), polls[1..])
  }

  /** Each poll's list extends the previous one: the log only grows. */
  predicate Growing(polls: seq<seq<string>>) {
    forall i :: 0 <= i < |polls| - 1 ==> polls[i] <= polls[i + 1]
  }

  lemma {:induction false} GrowingToLast(polls: seq<seq<string>>, i: nat)
    requires Growing(polls) && i < |polls|
    ensures polls[i] <= polls[|polls| - 1]
    decreases |polls| - i
  {
    if i < |polls| - 1 {
      GrowingToLast(polls, i + 1);
    }
  }

  /** When the log only grows and the cursor starts inside the first list, the polls
      together append every message of the last list from the cursor on exactly once,
      in order, and leave the cursor at its end. */
  lemma {:induction false} StreamDeliversOnce(index: nat, polls: seq<seq<string>>)
    requires |polls| > 0 && Growing(polls) && index <= |polls[0]|
    ensures index <= |polls[|polls| - 1]| && Stream(index, polls) == polls[|polls| - 1][index..]
    ensures Cursor(index, polls) == |polls[|polls| - 1]|
    decreases |polls|
  {
    var first := polls[0];
    if |polls| == 1 {
      assert Stream(|first|, polls[1..]) == [];
    } else {
      var rest := polls[1..];
      assert Growing(rest) by {
        forall i | 0 <= i < |rest| - 1 ensures rest[i] <= rest[i + 1] {
          assert rest[i] == polls[i + 1] && rest[i + 1] == polls[i + 2];
        }
      }
      assert first <= rest[0];
      StreamDeliversOnce(|first|, rest);
      GrowingToLast(polls, 0);
      var last := polls[|polls| - 1];
      assert rest[|rest| - 1] == last;
      assert first[index..] == last[index..|first|];
      assert last[index..|first|] + last[|first|..] == last[index..];
    }
  }

  /** From a fresh cursor, a growing log is delivered whole. */
  lemma FreshStreamIsWholeLog(polls: seq<seq<string>>)
    requires |polls| > 0 && Growing(polls)
    ensures Stream(0, polls) == polls[|polls| - 1]
  {
    StreamDeliversOnce(0, polls);
    assert polls[|polls| - 1][0..] == polls[|polls| - 1];
  }
}
