/**
 * The chat message list handed to a model: clearing `reasoning_content` from
 * assistant messages, and limiting the list to a model's `maxContext` while
 * keeping the first system message in front.
 */
module MessageContext {
  import opened Wrappers
  import opened Text

  datatype Role = System | User | Assistant | Tool

  /** A chat message; `reasoning` is the `reasoning_content` key, present or absent. */
  datatype Message = Message(role: Role, content: string, reasoning: Option<string>)

  /**
   * `clearReasoningContent` as written: the destructuring names the key
   * `_reasoning_content`, which no message carries, so the copy `rest` still
   * holds `reasoning_content`; every message comes back with the same fields.
   */
  function ClearReasoningAsWritten(messages: seq<Message>): (r: seq<Message>)
    ensures |r| == |messages|
  {
    if messages == [] then []
    else
      var m := messages[0];
      var rest := if m.role == Assistant && m.reasoning.Some? then Message(m.role, m.content, m.reasoning) else m;
      [rest] + ClearReasoningAsWritten(messages[1..])
  }

  /** As written, an assistant message keeps its reasoning: the list is returned unchanged. */
  lemma {:induction false} ClearReasoningAsWrittenKeepsReasoning(messages: seq<Message>)
    ensures ClearReasoningAsWritten(messages) == messages
  {
    if messages != [] {
      ClearReasoningAsWrittenKeepsReasoning(messages[1..]);
    }
  }

  /** The intended behaviour: assistant messages lose `reasoning_content`, nothing else changes. */
  function ClearReasoning(messages: seq<Message>): (r: seq<Message>)
    ensures |r| == |messages|
    ensures forall i :: 0 <= i < |r| ==> r[i].role == messages[i].role && r[i].content == messages[i].content
    ensures forall i :: 0 <= i < |r| ==> messages[i].role != Assistant ==> r[i] == messages[i]
    ensures forall i :: 0 <= i < |r| ==> r[i].role == Assistant ==> r[i].reasoning.None?
  {
    if messages == [] then []
    else
      var m := messages[0];
      var cleared := if m.role == Assistant && m.reasoning.Some? then Message(m.role, m.content, None) else m;
      [cleared] + ClearReasoning(messages[1..])
  }

  /** Clearing is idempotent. */
  lemma ClearReasoningIdempotent(messages: seq<Message>)
    ensures ClearReasoning(ClearReasoning(messages)) == ClearReasoning(messages)
  {
    var once := ClearReasoning(messages);
    var twice := ClearReasoning(once);
    forall i | 0 <= i < |once| ensures twice[i] == once[i] {
      if once[i].role == Assistant {
        assert twice[i].reasoning.None? && once[i].reasoning.None?;
      }
    }
  }

  /** `findIndex(msg => msg.role === "system")`. */
  function FirstSystem(messages: seq<Message>): (r: Option<nat>)
    ensures r.Some? ==> r.value < |messages| && messages[r.value].role == System
    ensures r.Some? ==> forall j :: 0 <= j < r.value ==> messages[j].role != System
    ensures r.None? ==> forall j :: 0 <= j < |messages| ==> messages[j].role != System
  {
    if messages == [] then None
    else if messages[0].role == System then Some(0)
    else match FirstSystem(messages[1..])
      case None => None
      case Some(i) => Some(i + 1)
  }

  /** The list with the element at `i` taken out, as `splice(i, 1)` leaves it. */
  function Without<T>(s: seq<T>, i: nat): (r: seq<T>)
    requires i < |s|
    ensures |r| == |s| - 1
    ensures forall j :: 0 <= j < i ==> r[j] == s[j]
    ensures forall j :: i <= j < |r| ==> r[j] == s[j + 1]
  {
    s[..i] + s[i + 1..]
  }

  /** No limit applies: no `maxContext`, a non-positive one, or a list that already fits. */
  predicate Unlimited(count: nat, maxContext: Option<int>) {
    maxContext.None? || maxContext.value <= 0 || count <= maxContext.value
  }

  /**
   * The window `limitMessageContext` returns as written, on the cleared list.
   * With a system message and maxContext 1 it keeps `slice(-0)`, which is the
   * whole list of the other messages.
   */
  function ContextWindowAsWritten(processed: seq<Message>, maxContext: Option<int>): seq<Message>
  {
    if Unlimited(|processed|, maxContext) then processed
    else
      var max := maxContext.value;
      match FirstSystem(processed)
      case None => Slice(processed, -max)
      case Some(i) =>
        [processed[i]] + KeptAsWritten(Without(processed, i), max)
  }

  /** The other messages kept as written: `slice(-(maxContext - 1))` when they are too many. */
  function KeptAsWritten(others: seq<Message>, max: int): seq<Message>
  {
    if |others| > max - 1 then Slice(others, -(max - 1)) else others
  }

  /** As written, maxContext 1 with a system message limits nothing: the window is longer than 1. */
  lemma WindowOfOneAsWritten(processed: seq<Message>)
    requires |processed| > 1
    requires FirstSystem(processed).Some?
    ensures var i := FirstSystem(processed).value;
      var w := ContextWindowAsWritten(processed, Some(1));
      w == [processed[i]] + Without(processed, i) && |w| == |processed| > 1
  {
    var i := FirstSystem(processed).value;
    assert KeptAsWritten(Without(processed, i), 1) == Without(processed, i);
  }

  /** The intended window: the other messages kept are the last maxContext - 1, none when that is 0. */
  function ContextWindow(processed: seq<Message>, maxContext: Option<int>): seq<Message>
  {
    if Unlimited(|processed|, maxContext) then processed
    else
      var max := maxContext.value;
      match FirstSystem(processed)
      case None => Slice(processed, -max)
      case Some(i) =>
        [processed[i]] + Kept(Without(processed, i), max)
  }

  /** The other messages kept: the last `max - 1` of them, all when they are fewer. */
  function Kept(others: seq<Message>, max: int): (r: seq<Message>)
    requires max >= 1
    ensures |others| > max - 1 ==> |r| == max - 1
    ensures |r| <= |others| && r == others[|others| - |r|..]
  {
    if |others| > max - 1 then others[|others| - (max - 1)..]
    else assert others[0..] == others; others
  }

  /** For maxContext 2 and up the two readings of the kept messages agree. */
  lemma KeptAgrees(others: seq<Message>, max: int)
    requires max >= 2
    ensures Kept(others, max) == KeptAsWritten(others, max)
  {
  }

  /** `limitMessageContext`: clears reasoning, then splices the system message out, trims, and unshifts it back. */
  method LimitMessageContext(messages: seq<Message>, maxContext: Option<int>) returns (limited: seq<Message>)
    ensures limited == ContextWindow(ClearReasoning(messages), maxContext)
  {
    var processed := ClearReasoning(messages);
    if maxContext.None? || maxContext.value <= 0 || |processed| <= maxContext.value {
      return processed;
    }
    var max := maxContext.value;
    limited := processed;
    var systemIndex := FirstSystem(limited);
    if systemIndex.Some? {
      var systemMessage := limited[systemIndex.value];
      limited := limited[..systemIndex.value] + limited[systemIndex.value + 1..];
      var remainingCount := max - 1;
      if |limited| > remainingCount {
        limited := limited[|limited| - remainingCount..];
      }
      limited := [systemMessage] + limited;
    } else {
      limited := Slice(limited, -max);
    }
  }

  /** The correction changes only the case of maxContext 1 with a system message. */
  lemma WindowAgreesAsWritten(processed: seq<Message>, maxContext: Option<int>)
    requires maxContext.None? || maxContext.value != 1 || FirstSystem(processed).None?
    ensures ContextWindow(processed, maxContext) == ContextWindowAsWritten(processed, maxContext)
  {
    if !Unlimited(|processed|, maxContext) && FirstSystem(processed).Some? {
      KeptAgrees(Without(processed, FirstSystem(processed).value), maxContext.value);
    }
  }

  /** A positive maxContext bounds the window, and a list that is cut keeps its first system message in front. */
  lemma WindowBound(processed: seq<Message>, max: int)
    requires max > 0
    ensures |ContextWindow(processed, Some(max))| <= max
    ensures |processed| > max && FirstSystem(processed).Some? ==>
      ContextWindow(processed, Some(max))[0] == processed[FirstSystem(processed).value]
  {
  }

  /** With no, non-positive or sufficient maxContext the cleared list comes back whole. */
  lemma WindowUnlimited(processed: seq<Message>, maxContext: Option<int>)
    requires Unlimited(|processed|, maxContext)
    ensures ContextWindow(processed, maxContext) == processed
  {
  }

  /** Without a system message the window is the last maxContext messages, in order. */
  lemma WindowWithoutSystem(processed: seq<Message>, max: int)
    requires max > 0 && |processed| > max
    requires forall j :: 0 <= j < |processed| ==> processed[j].role != System
    ensures |ContextWindow(processed, Some(max))| == max
    ensures ContextWindow(processed, Some(max)) == processed[|processed| - max..]
  {
  }

  /**
   * With a system message the window is the first system message followed
   * by the last maxContext - 1 other messages; any later system message is
   * treated as an ordinary one.
   */
  lemma WindowWithSystem(processed: seq<Message>, max: int)
    requires max >= 1 && |processed| > max
    requires FirstSystem(processed).Some?
    ensures var i := FirstSystem(processed).value;
      var w := ContextWindow(processed, Some(max));
      |w| == max && w[0] == processed[i] &&
      w[1..] == Without(processed, i)[|processed| - max..]
  {
    var i := FirstSystem(processed).value;
    var tail := Kept(Without(processed, i), max);
    assert tail == Without(processed, i)[|processed| - max..];
    assert ContextWindow(processed, Some(max)) == [processed[i]] + tail;
    assert ([processed[i]] + tail)[1..] == tail;
  }

  /** The window never holds more messages than the list, and every message in it comes from the list. */
  lemma WindowFromList(processed: seq<Message>, maxContext: Option<int>)
    ensures |ContextWindow(processed, maxContext)| <= |processed|
    ensures forall m :: m in ContextWindow(processed, maxContext) ==> m in processed
  {
    if !Unlimited(|processed|, maxContext) {
      var max := maxContext.value;
      if FirstSystem(processed).Some? {
        var i := FirstSystem(processed).value;
        var others := Without(processed, i);
        var kept := Kept(others, max);
        assert ContextWindow(processed, maxContext) == [processed[i]] + kept;
        InSuffix(others, |others| - |kept|);
        InWithout(processed, i);
      } else {
        var w := Slice(processed, -max);
        assert ContextWindow(processed, maxContext) == w;
        InSuffix(processed, |processed| - |w|);
      }
    }
  }

  lemma InSuffix<T>(a: seq<T>, k: nat)
    requires k <= |a|
    ensures forall x :: x in a[k..] ==> x in a
  {
    forall x | x in a[k..] ensures x in a {
      var j :| 0 <= j < |a[k..]| && a[k..][j] == x;
      assert a[k + j] == x;
    }
  }

  lemma InWithout<T>(s: seq<T>, i: nat)
    requires i < |s|
    ensures forall x :: x in Without(s, i) ==> x in s
  {
    var w := Without(s, i);
    forall x | x in w ensures x in s {
      var j :| 0 <= j < |w| && w[j] == x;
      if j < i { assert s[j] == x; } else { assert s[j + 1] == x; }
    }
  }

}
