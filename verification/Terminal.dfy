/** The dashboard's terminal widget: the command history with its cursor
    (dashboard.js lines 1-3), the input line, and the transcript the commands
    write into (`addOutput`, dashboard.js lines 469-477). Submitting a line
    (the Enter key and the Run button, dashboard.js lines 279-297) and the
    arrow keys (lines 298-313) update these in place. */
module Terminal {
  import opened Text
  import opened Commands

  /** Where the history cursor stands and what the input line shows. */
  datatype Nav = Nav(cursor: int, input: string)

  /** The ArrowUp key: step back one entry unless already at the oldest. */
  function Up(history: seq<string>, n: Nav): (r: Nav)
    requires -1 <= n.cursor <= |history|
    ensures -1 <= r.cursor <= |history|
    ensures r.cursor == n.cursor || r.cursor == n.cursor - 1
    ensures r.cursor != n.cursor ==> 0 <= r.cursor < |history| && r.input == history[r.cursor]
    ensures r.cursor == n.cursor <==> n.cursor <= 0
    ensures r.cursor == n.cursor ==> r == n
  {
    if n.cursor > 0 then Nav(n.cursor - 1, history[n.cursor - 1]) else n
  }

  /** The ArrowDown key: step forward one entry, or past the newest to a
      blank input line. */
  function Down(history: seq<string>, n: Nav): (r: Nav)
    requires -1 <= n.cursor <= |history|
    ensures 0 <= r.cursor <= |history|
    ensures r.cursor == |history| <==> n.cursor >= |history| - 1
    ensures r.cursor < |history| ==> r.cursor == n.cursor + 1 && r.input == history[r.cursor]
    ensures r.cursor == |history| ==> r.input == []
  {
    if n.cursor < |history| - 1 then Nav(n.cursor + 1, history[n.cursor + 1])
    else Nav(|history|, "")
  }

  /** `k` presses of ArrowUp. */
  function Ups(history: seq<string>, n: Nav, k: nat): (r: Nav)
    requires -1 <= n.cursor <= |history|
    ensures -1 <= r.cursor <= |history|
  {
    if k == 0 then n else Up(history, Ups(history, n, k - 1))
  }

  /** Right after a submission the cursor stands past the newest entry;
      pressing ArrowUp `k` times then recalls the `k`-th most recent
      command. */
  lemma {:induction false} UpsRecall(history: seq<string>, input: string, k: nat)
    requires 1 <= k <= |history|
    ensures Ups(history, Nav(|history|, input), k) == Nav(|history| - k, history[|history| - k])
  {
    if k > 1 {
      UpsRecall(history, input, k - 1);
    }
  }

  /** Pressing ArrowUp more often than there are entries stops at the
      oldest. */
  lemma {:induction false} UpsSaturate(history: seq<string>, input: string, k: nat)
    requires 1 <= |history| <= k
    ensures Ups(history, Nav(|history|, input), k) == Nav(0, history[0])
  {
    if k == |history| {
      UpsRecall(history, input, k);
    } else {
      UpsSaturate(history, input, k - 1);
    }
  }

  /** ArrowDown undoes ArrowUp: it returns to the entry the cursor stood
      on, or to a blank line when it stood past the newest entry. */
  lemma DownUndoesUp(history: seq<string>, n: Nav)
    requires 1 <= n.cursor <= |history|
    ensures Down(history, Up(history, n)) ==
      Nav(n.cursor, if n.cursor == |history| then "" else history[n.cursor])
  {
  }

  /** Whatever the keys do, the input line shows a stored command, a blank
      line, or what it showed before. */
  lemma NavigationShowsHistory(history: seq<string>, n: Nav)
    requires -1 <= n.cursor <= |history|
    ensures var u := Up(history, n); u.input == n.input || u.input in history
    ensures var d := Down(history, n); d.input == [] || d.input in history
  {
  }

  /** Every stored command is non-empty and already trimmed. */
  predicate Stored(history: seq<string>) {
    forall k :: 0 <= k < |history| ==> history[k] != [] && Trim(JavaScript, history[k]) == history[k]
  }

  /** Storing the trimmed form of a non-blank line keeps the history
      well-formed. */
  lemma StoredPush(history: seq<string>, line: string)
    requires Stored(history) && Trim(JavaScript, line) != []
    ensures Stored(history + [Trim(JavaScript, line)])
  {
    TrimIdempotent(JavaScript, line);
  }

  /** The terminal's state. */
  class Terminal {
    var history: seq<string>
    var cursor: int
    var input: string
    var transcript: seq<string>

    /** The cursor stays within one step of the stored commands and is -1
        only before anything has happened. */
    predicate Valid()
      reads this
    {
      -1 <= cursor <= |history|
      && (cursor == -1 ==> history == [])
      && Stored(history)
    }

    /** The page loads with no history, the cursor at -1, an empty input
        line and an empty transcript. */
    constructor ()
      ensures Valid()
      ensures history == [] && cursor == -1 && input == [] && transcript == []
    {
      history := [];
      cursor := -1;
      input := [];
      transcript := [];
    }

    /** The user edits the input line. */
    method Type(text: string)
      requires Valid()
      modifies this
      ensures Valid()
      ensures input == text
      ensures history == old(history) && cursor == old(cursor) && transcript == old(transcript)
    {
      input := text;
    }

    /** `addOutput`: one more line at the end of the transcript. */
    method AddOutput(text: string)
      modifies this
      ensures old(Valid()) ==> Valid()
      ensures transcript == old(transcript) + [text]
      ensures history == old(history) && cursor == old(cursor) && input == old(input)
    {
      transcript := transcript + [text];
    }

    /** The `clear` command empties the transcript. */
    method ClearOutput()
      modifies this
      ensures old(Valid()) ==> Valid()
      ensures transcript == []
      ensures history == old(history) && cursor == old(cursor) && input == old(input)
    {
      transcript := [];
    }

    /** Enter, or a click on Run: a blank input does nothing; otherwise the
        trimmed line is stored, the cursor moves past it, the command runs
        against the loaded data, and the input line is cleared. Returns what
        the command asks of the rest of the page (tab switches, opened
        links, assistant requests), in order. */
    method Submit(s: Session, ai: AiResponse) returns (effects: seq<Event>)
      requires Valid()
      modifies this
      ensures Valid()
      ensures Trim(JavaScript, old(input)) == [] ==>
        history == old(history) && cursor == old(cursor) && input == old(input)
        && transcript == old(transcript) && effects == []
      ensures var val := Trim(JavaScript, old(input)); val != [] ==>
        history == old(history) + [val] && cursor == |history| && input == []
      ensures var val := Trim(JavaScript, old(input)); val != [] ==>
        var evs := RunCmd(val, s, ai);
        transcript == Render(old(transcript), evs) && effects == Effects(evs)
    {
      var val := Trim(JavaScript, input);
      if val == [] {
        return [];
      }
      StoredPush(history, input);
      effects := Execute(val, s, ai);
    }

    /** Stores a non-blank trimmed command, moves the cursor past it, runs
        it and clears the input line. */
    method Execute(val: string, s: Session, ai: AiResponse) returns (effects: seq<Event>)
      requires Valid() && Stored(history + [val])
      modifies this
      ensures Valid()
      ensures history == old(history) + [val] && cursor == |history| && input == []
      ensures transcript == Render(old(transcript), RunCmd(val, s, ai))
      ensures effects == Effects(RunCmd(val, s, ai))
    {
      history := history + [val];
      cursor := |history|;
      effects := Perform(RunCmd(val, s, ai));
      input := [];
    }

    /** Carries out a command's events in order: lines are appended with
        `addOutput`, a clear empties the transcript, and every other event is
        handed back to the page. */
    method Perform(evs: seq<Event>) returns (effects: seq<Event>)
      modifies this
      ensures history == old(history) && cursor == old(cursor) && input == old(input)
      ensures transcript == Render(old(transcript), evs)
      ensures effects == Effects(evs)
    {
      ghost var t0 := transcript;
      effects := [];
      var i := 0;
      while i < |evs|
        invariant 0 <= i <= |evs|
        invariant history == old(history) && cursor == old(cursor) && input == old(input)
        invariant transcript == Render(t0, evs[..i])
        invariant effects == Effects(evs[..i])
      {
        var e := evs[i];
        assert evs[..i + 1][..i] == evs[..i];
        match e {
          case Line(text) =>
            AddOutput(text);
          case ClearScreen =>
            ClearOutput();
          case _ =>
            effects := effects + [e];
        }
        i := i + 1;
      }
      assert evs[..i] == evs;
    }

    /** ArrowUp. */
    method ArrowUp()
      requires Valid()
      modifies this
      ensures Valid()
      ensures history == old(history) && transcript == old(transcript)
      ensures Nav(cursor, input) == Up(history, Nav(old(cursor), old(input)))
    {
      if cursor > 0 {
        cursor := cursor - 1;
        input := history[cursor];
      }
    }

    /** ArrowDown. */
    method ArrowDown()
      requires Valid()
      modifies this
      ensures Valid()
      ensures history == old(history) && transcript == old(transcript)
      ensures Nav(cursor, input) == Down(history, Nav(old(cursor), old(input)))
    {
      if cursor < |history| - 1 {
        cursor := cursor + 1;
        input := history[cursor];
      } else {
        cursor := |history|;
        input := [];
      }
    }
  }
}
