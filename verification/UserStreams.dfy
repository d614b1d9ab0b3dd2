/** The user-input stream that the transport synchronises (statesync/user.cc): a queue of
    keystrokes and window resizes, cut from the front and extended at the back.

    A diff is modelled in parsed form, as the list of instructions of a `UserMessage`; its
    serialisation is empty exactly when the list is. */
module UserStreams {
  import opened Outcomes
  import opened Bytes

  datatype UserEvent = UserByte(c: Byte) | Resize(width: int, height: int)

  datatype UserInstruction = Keystroke(keys: seq<Byte>) | ResizeMessage(cols: int, rows: int)

  type Stream = seq<UserEvent>
  type Diff = seq<UserInstruction>

  function KeyEvents(keys: seq<Byte>): Stream {
    seq(|keys|, i requires 0 <= i < |keys| => UserByte(keys[i]))
  }

  function InstructionEvents(i: UserInstruction): Stream {
    match i
    case Keystroke(keys) => KeyEvents(keys)
    case ResizeMessage(w, h) => [Resize(w, h)]
  }

  /** The events a diff stands for. */
  function Events(d: Diff): Stream {
    if d == [] then [] else Events(d[..|d| - 1]) + InstructionEvents(d[|d| - 1])
  }

  /** One round of the encoding loop: a byte joins a keystroke that is already last. */
  function AppendEvent(d: Diff, e: UserEvent): Diff {
    match e
    case UserByte(c) =>
      if |d| > 0 && d[|d| - 1].Keystroke? then
        d[|d| - 1 := Keystroke(d[|d| - 1].keys + [c])]
      else
        d + [Keystroke([c])]
    case Resize(w, h) => d + [ResizeMessage(w, h)]
  }

  /** The diff that `diff_from` builds for a run of events. */
  function Encode(es: Stream): Diff {
    if es == [] then [] else AppendEvent(Encode(es[..|es| - 1]), es[|es| - 1])
  }

  /** Diffs in normal form: no empty keystroke and no two keystrokes side by side. */
  predicate Canonical(d: Diff) {
    && (forall i | 0 <= i < |d| && d[i].Keystroke? :: d[i].keys != [])
    && (forall i | 0 < i < |d| && d[i].Keystroke? :: d[i - 1].ResizeMessage?)
  }

  lemma AppendEventAddsEvent(d: Diff, e: UserEvent)
    requires Canonical(d)
    ensures Canonical(AppendEvent(d, e))
    ensures Events(AppendEvent(d, e)) == Events(d) + [e]
    ensures AppendEvent(d, e) != []
  {
    var r := AppendEvent(d, e);
    var init := r[..|r| - 1];
    if |r| == |d| {
      assert init == d[..|d| - 1];
      assert KeyEvents(d[|d| - 1].keys + [e.c]) == KeyEvents(d[|d| - 1].keys) + [e];
    } else {
      assert init == d;
    }
  }

  /** Decoding an encoded run of events gives the run back, the encoding is in normal form, and
      it is empty only for the empty run (the test that makes `tick` send an empty ack). */
  lemma {:induction false} EncodeRoundTrip(es: Stream)
    ensures Events(Encode(es)) == es
    ensures Canonical(Encode(es))
    ensures Encode(es) == [] <==> es == []
  {
    if es != [] {
      var init, last := es[..|es| - 1], es[|es| - 1];
      assert es == init + [last];
      EncodeRoundTrip(init);
      var d := Encode(init);
      AppendEventAddsEvent(d, last);
      assert Encode(es) == AppendEvent(d, last);
    }
  }

  lemma {:induction false} EncodeKeys(d: Diff, keys: seq<Byte>, es: Stream)
    requires keys != []
    requires Encode(es) == d && (d == [] || d[|d| - 1].ResizeMessage?)
    ensures Encode(es + KeyEvents(keys)) == d + [Keystroke(keys)]
  {
    var last := keys[|keys| - 1];
    var init := keys[..|keys| - 1];
    assert KeyEvents(keys) == KeyEvents(init) + [UserByte(last)];
    var all := es + KeyEvents(keys);
    assert all[..|all| - 1] == es + KeyEvents(init);
    assert init + [last] == keys;
    if init == [] {
      assert es + KeyEvents(init) == es;
    } else {
      EncodeKeys(d, init, es);
    }
  }

  /** The other direction: `diff_from` is the only way to write a run of events in normal form. */
  lemma {:induction false} DecodeRoundTrip(d: Diff)
    requires Canonical(d)
    ensures Encode(Events(d)) == d
  {
    hide Encode, AppendEvent, InstructionEvents, KeyEvents;
    if d == [] {
      EncodeRoundTrip([]);
    } else {
      var init, last := d[..|d| - 1], d[|d| - 1];
      DecodeRoundTrip(init);
      EncodeInstruction(init, last);
      assert d == init + [last];
    }
  }

  /** Encoding one more instruction, after events whose encoding does not end in a keystroke that
      it would join. */
  lemma EncodeInstruction(init: Diff, last: UserInstruction)
    requires Encode(Events(init)) == init && Canonical(init + [last])
    ensures Encode(Events(init) + InstructionEvents(last)) == init + [last]
  {
    var d := init + [last];
    assert d[|init|] == last && (init != [] ==> d[|init| - 1] == init[|init| - 1]);
    hide Canonical;
    if last.Keystroke? {
      EncodeKeys(init, last.keys, Events(init));
    } else {
      var es := Events(init) + InstructionEvents(last);
      assert es[..|es| - 1] == Events(init);
    }
  }

  class UserStream {
    var actions: Stream

    constructor (initial: Stream)
      ensures actions == initial
    {
      actions := initial;
    }

    method PushBack(e: UserEvent)
      modifies this
      ensures actions == old(actions) + [e]
    {
      actions := actions + [e];
    }

    /** Pops the events of `prefix` one by one. The iterators run over the elements `prefix` held
        on entry, so subtracting a stream from itself clears it. */
    method Subtract(prefix: UserStream) returns (ok: bool)
      modifies this
      ensures ok <==> old(prefix.actions) <= old(actions)
      ensures ok ==> actions == old(actions)[|old(prefix.actions)|..]
    {
      var items := prefix.actions;
      for i := 0 to |items|
        invariant i <= |old(actions)| && items[..i] == old(actions)[..i]
        invariant actions == old(actions)[i..]
      {
        if actions == [] || items[i] != actions[0] {
          assert i < |old(actions)| ==> old(actions)[i] != items[i];
          return false;
        }
        actions := actions[1..];
      }
      return true;
    }

    /** Skips the events of `existing` and encodes the rest. */
    method DiffFrom(existing: UserStream) returns (r: Outcome<Diff>)
      ensures r.Ok? <==> existing.actions <= actions
      ensures r.Ok? ==> r.value == Encode(actions[|existing.actions|..])
      ensures r.Ok? ==> Events(r.value) == actions[|existing.actions|..]
    {
      var myIt := 0;
      for i := 0 to |existing.actions|
        invariant myIt == i <= |actions|
        invariant forall j | 0 <= j < i :: existing.actions[j] == actions[j]
      {
        if myIt == |actions| || existing.actions[i] != actions[myIt] {
          return AssertFailed;
        }
        myIt := myIt + 1;
      }
      var output := EncodeFrom(myIt);
      EncodeRoundTrip(actions[myIt..]);
      return Ok(output);
    }

    /** The encoding loop, from position `start` to the end of the queue. */
    method EncodeFrom(start: nat) returns (output: Diff)
      requires start <= |actions|
      ensures output == Encode(actions[start..])
    {
      hide AppendEvent;
      output := [];
      for myIt := start to |actions|
        invariant output == Encode(actions[start..myIt])
      {
        var done := actions[start..myIt + 1];
        assert done[..|done| - 1] == actions[start..myIt];
        output := AppendEvent(output, actions[myIt]);
      }
      assert actions[start..|actions|] == actions[start..];
    }

    method ApplyString(diff: Diff)
      modifies this
      ensures actions == old(actions) + Events(diff)
    {
      hide KeyEvents;
      for i := 0 to |diff|
        invariant actions == old(actions) + Events(diff[..i])
      {
        assert diff[..i + 1][..i] == diff[..i];
        match diff[i] {
          case Keystroke(keys) => ApplyKeys(keys);
          case ResizeMessage(w, h) => actions := actions + [Resize(w, h)];
        }
      }
      assert diff[..|diff|] == diff;
    }

    method ApplyKeys(keys: seq<Byte>)
      modifies this
      ensures actions == old(actions) + KeyEvents(keys)
    {
      for loc := 0 to |keys|
        invariant actions == old(actions) + KeyEvents(keys[..loc])
      {
        actions := actions + [UserByte(keys[loc])];
        assert KeyEvents(keys[..loc + 1]) == KeyEvents(keys[..loc]) + [UserByte(keys[loc])];
      }
      assert keys[..|keys|] == keys;
    }
  }
}
