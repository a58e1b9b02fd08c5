/**
 packages/cli-repl/src/line-by-line-input.ts in its own form: a class whose methods move the fields
 in place, and whose `Push` runs the consumer, which may call straight back into the class. Every
 method is proved to compute the flat automaton of LineGate, in which nothing is re-entered.
 */
module LineByLineInput {
  import opened LineTokens
  import opened LineGate

  /** A flush called while a push is under way leaves everything to the flush already running. */
  function FlushUnlessInside(insidePushCalls: nat, s: LineGate.State): LineGate.State {
    if insidePushCalls == 0 then LineGate.Flush(s) else s
  }

  class LineByLineInput {
    var forwarding: bool
    var blockOnNewLineEnabled: bool
    var charQueue: seq<Entry>
    var insidePushCalls: nat

    // the two neighbours: the wrapped input's paused flag, and the consumer's future reactions
    var originalPaused: bool
    var consumer: seq<seq<Reaction>>
    ghost var log: seq<Event>

    ghost function View(): LineGate.State
      reads this
    {
      State(forwarding, blockOnNewLineEnabled, originalPaused, charQueue, consumer, log)
    }

    constructor (consumer: seq<seq<Reaction>>)
      ensures View() == Initial(consumer) && insidePushCalls == 0
    {
      forwarding, blockOnNewLineEnabled, charQueue, insidePushCalls := true, true, [], 0;
      originalPaused, this.consumer, log := false, consumer, [];
    }

    method NextLine()
      modifies this
      ensures View() == FlushUnlessInside(insidePushCalls, Switch(old(View()), Reaction.NextLine))
      ensures insidePushCalls == old(insidePushCalls)
      decreases |consumer|, 2
    {
      forwarding, log := true, log + [Released];
      Flush();
    }

    method EnableBlockOnNewLine()
      modifies this
      ensures View() == Switch(old(View()), EnableBlocking)
      ensures insidePushCalls == old(insidePushCalls)
    {
      blockOnNewLineEnabled, log := true, log + [Blocking(true)];
    }

    method DisableBlockOnNewline()
      modifies this
      ensures View() == FlushUnlessInside(insidePushCalls, Switch(old(View()), DisableBlocking))
      ensures insidePushCalls == old(insidePushCalls)
      decreases |consumer|, 2
    {
      blockOnNewLineEnabled, log := false, log + [Blocking(false)];
      Flush();
    }

    method OnData(chunk: seq<Symbol>)
      requires insidePushCalls == 0
      modifies this
      ensures View() == Step(old(View()), Data(chunk)) && insidePushCalls == 0
    {
      if blockOnNewLineEnabled {
        ForwardAndBlockOnNewline(chunk);
      } else {
        Push(Passed(chunk));
      }
    }

    method ForwardAndBlockOnNewline(chunk: seq<Symbol>)
      requires insidePushCalls == 0
      modifies this
      ensures View() == LineGate.Flush(Absorb(old(View()), chunk)) && insidePushCalls == 0
    {
      for i := 0 to |chunk|
        invariant insidePushCalls == 0
        invariant Absorb(View(), chunk[i..]) == Absorb(old(View()), chunk)
      {
        ghost var before := View();
        var y := chunk[i];
        var last := if charQueue == [] then [] else charQueue[|charQueue| - 1];
        if IsControl(y) {
          Push(Interrupted(y));
        } else if last != [] && ((y == LF && last[|last| - 1] == CR) ||
                                 (IsRegular(y) && IsRegular(last[|last| - 1]))) {
          charQueue := charQueue[|charQueue| - 1 := last + [y]];
        } else {
          charQueue := charQueue + [[y]];
        }
        assert View() == AbsorbOne(before, y);
        assert chunk[i..][0] == y && chunk[i..][1..] == chunk[i + 1..];
      }
      assert chunk[|chunk|..] == [];
      Flush();
    }

    method Flush()
      modifies this
      ensures View() == FlushUnlessInside(insidePushCalls, old(View()))
      ensures insidePushCalls == old(insidePushCalls)
      decreases |consumer|, 1
    {
      while charQueue != [] && (!blockOnNewLineEnabled || forwarding) && !originalPaused && insidePushCalls == 0
        invariant insidePushCalls == old(insidePushCalls)
        invariant insidePushCalls != 0 ==> View() == old(View())
        invariant LineGate.Flush(View()) == LineGate.Flush(old(View()))
        invariant |consumer| <= old(|consumer|)
        decreases |charQueue|
      {
        ghost var before := View();
        var y := charQueue[0];
        charQueue := charQueue[1..];
        if IsLineEnding(y) {
          forwarding := false;
        }
        PushFrame(View(), Pushed(y));
        Push(Pushed(y));
        assert View() == PushHead(before);
      }
    }

    method Push(e: Event)
      modifies this
      ensures View() == LineGate.Push(old(View()), e)
      ensures insidePushCalls == old(insidePushCalls)
      decreases |consumer|, 0
    {
      insidePushCalls, log := insidePushCalls + 1, log + [e];
      if consumer != [] {
        var reactions := consumer[0];
        consumer := consumer[1..];
        Consume(reactions);
      }
      insidePushCalls := insidePushCalls - 1;
    }

    /** The consumer at work, while at least one push is under way. */
    method Consume(reactions: seq<Reaction>)
      requires insidePushCalls > 0
      modifies this
      ensures View() == React(old(View()), reactions)
      ensures insidePushCalls == old(insidePushCalls)
      decreases |consumer|, 3
    {
      for i := 0 to |reactions|
        invariant insidePushCalls == old(insidePushCalls) && consumer == old(consumer)
        invariant React(View(), reactions[i..]) == React(old(View()), reactions)
      {
        ghost var before := View();
        match reactions[i] {
          case NextLine => NextLine();
          case PauseInput => originalPaused := true;
          case ResumeInput => originalPaused := false;
          case EnableBlocking => EnableBlockOnNewLine();
          case DisableBlocking => DisableBlockOnNewline();
        }
        SwitchFrame(before, reactions[i]);
        assert View() == Switch(before, reactions[i]);
        assert reactions[i..][1..] == reactions[i + 1..];
      }
      assert reactions[|reactions|..] == [];
    }

    /** Any sequence of calls from outside, so that the lemmas about runs hold of the class. */
    method Replay(calls: seq<Call>)
      requires insidePushCalls == 0
      modifies this
      ensures View() == Run(old(View()), calls) && insidePushCalls == 0
    {
      for i := 0 to |calls|
        invariant insidePushCalls == 0 && Run(View(), calls[i..]) == Run(old(View()), calls)
      {
        assert calls[i..][1..] == calls[i + 1..];
        match calls[i] {
          case Data(chunk) => OnData(chunk);
          case Do(NextLine) => NextLine();
          case Do(PauseInput) => originalPaused := true;
          case Do(ResumeInput) => originalPaused := false;
          case Do(EnableBlocking) => EnableBlockOnNewLine();
          case Do(DisableBlocking) => DisableBlockOnNewline();
        }
      }
      assert calls[|calls|..] == [];
    }
  }
}
