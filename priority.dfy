/**
 * The priority prompt: lines are read one at a time until one of them, once
 * stripped, is empty (the user quits) or is an integer from 1 to 4 (the chosen
 * priority). Any other line draws a warning and the prompt is shown again.
 * The console is the finite sequence of lines the user types; reading past its
 * end is `input()` raising `EOFError`.
 */
module Priority {
  import opened Wrappers
  import opened Text

  /** How one line typed at the prompt is treated. */
  datatype Attempt = Cancel | NotInteger | OutOfRange(n: int) | Accept(p: int)

  /** The two warnings that send the user back to the prompt. */
  datatype Warning = MustBeInteger | MustBeOneToFour

  /** An attempt that shows a warning and reads another line. */
  predicate Rejected(a: Attempt) {
    a.NotInteger? || a.OutOfRange?
  }

  function WarningFor(a: Attempt): Warning
    requires Rejected(a)
  {
    if a.NotInteger? then MustBeInteger else MustBeOneToFour
  }

  /** One pass of the prompt loop's body: the line is stripped; an empty line quits,
      a line `int()` refuses is a `ValueError`, and an integer is accepted only
      from 1 to 4. */
  function Classify(line: string): (a: Attempt)
    ensures a.Accept? ==> 1 <= a.p <= 4
  {
    var t := Trim(line);
    if t == [] then Cancel
    else match ParseInt(t)
      case None => NotInteger
      case Some(n) => if 1 <= n <= 4 then Accept(n) else OutOfRange(n)
  }

  /** A blank line, and only a blank line, quits; a line that is not an integer is
      refused as such; an integer is accepted exactly when it lies in 1..4 and is
      otherwise refused as out of range. */
  lemma ClassifySpec(line: string)
    ensures Classify(line).Cancel? <==> Blank(line)
    ensures Classify(line).NotInteger? <==> !Blank(line) && ParseInt(line).None?
    ensures Classify(line).OutOfRange? <==>
              !Blank(line) && ParseInt(line).Some? && !(1 <= ParseInt(line).value <= 4)
    ensures Classify(line).Accept? <==>
              !Blank(line) && ParseInt(line).Some? && 1 <= ParseInt(line).value <= 4
    ensures Classify(line).OutOfRange? ==> Classify(line).n == ParseInt(line).value
    ensures Classify(line).Accept? ==> Classify(line).p == ParseInt(line).value
  {
    TrimIdempotent(line);
  }

  /** How the prompt loop ended. */
  datatype Decision = Chosen(priority: int) | Cancelled | Exhausted

  /** The outcome of the prompt loop, the number of lines it read and the warnings
      it showed, in order. */
  datatype PromptRun = PromptRun(decision: Decision, used: nat, warnings: seq<Warning>)

  /** Each typed line as the prompt treats it. */
  function Attempts(lines: seq<string>): (r: seq<Attempt>)
    ensures |r| == |lines|
  {
    seq(|lines|, i requires 0 <= i < |lines| => Classify(lines[i]))
  }

  /** The prompt loop over the treated lines, one line per pass: a cancel or an
      accepted priority ends it, any other line draws its warning and the prompt
      is shown again. A chosen priority is always between 1 and 4, and never more
      lines are read than were typed. */
  function Loop(attempts: seq<Attempt>): (r: PromptRun)
    ensures r.used <= |attempts|
  {
    if attempts == [] then PromptRun(Exhausted, 0, [])
    else
      var a := attempts[0];
      match a
      case Cancel => PromptRun(Cancelled, 1, [])
      case Accept(p) => PromptRun(Chosen(p), 1, [])
      case _ =>
        var rest := Loop(attempts[1..]);
        PromptRun(rest.decision, rest.used + 1, [WarningFor(a)] + rest.warnings)
  }

  /** The prompt loop over the typed lines. */
  function Prompted(lines: seq<string>): (r: PromptRun)
    ensures r.decision.Chosen? ==> 1 <= r.decision.priority <= 4
    ensures r.used <= |lines|
  {
    var attempts := Attempts(lines);
    LoopChoosesClassified(attempts);
    Loop(attempts)
  }

  /** A chosen priority is one that some line was classified as accepting. */
  lemma {:induction false} LoopChoosesClassified(attempts: seq<Attempt>)
    ensures Loop(attempts).decision.Chosen? ==>
              Loop(attempts).used >= 1 && attempts[Loop(attempts).used - 1] == Accept(Loop(attempts).decision.priority)
  {
    if attempts != [] && Rejected(attempts[0]) {
      LoopChoosesClassified(attempts[1..]);
    }
  }

  /** The outcome is decided by the first line that is neither a non-integer nor out of
      range: a blank one cancels, one holding 1..4 chooses that priority. Every earlier
      line was rejected with its own warning; if there is no deciding line, all lines
      are read and the input runs out. */
  ghost predicate Decides(attempts: seq<Attempt>, r: PromptRun) {
    && r.used <= |attempts|
    && |r.warnings| == (if r.decision.Exhausted? then r.used else r.used - 1)
    && (forall j | 0 <= j < |r.warnings| ::
          Rejected(attempts[j]) && r.warnings[j] == WarningFor(attempts[j]))
    && (r.decision.Exhausted? ==> r.used == |attempts|)
    && (r.decision.Cancelled? ==> r.used > 0 && attempts[r.used - 1].Cancel?)
    && (r.decision.Chosen? ==> r.used > 0 && attempts[r.used - 1] == Accept(r.decision.priority))
  }

  /** `k` lines already rejected with warnings `ws`, followed by the run `r`. */
  function After(k: nat, ws: seq<Warning>, r: PromptRun): PromptRun {
    PromptRun(r.decision, r.used + k, ws + r.warnings)
  }

  lemma {:induction false} LoopDecides(attempts: seq<Attempt>)
    ensures Decides(attempts, Loop(attempts))
  {
    if attempts != [] && Rejected(attempts[0]) {
      LoopDecides(attempts[1..]);
      DecidesCons(attempts, Loop(attempts[1..]));
    }
  }

  /** A rejected line in front of a run: the run one line longer, with its warning
      first. */
  lemma DecidesCons(attempts: seq<Attempt>, rest: PromptRun)
    requires attempts != [] && Rejected(attempts[0])
    requires Decides(attempts[1..], rest)
    ensures Decides(attempts, After(1, [WarningFor(attempts[0])], rest))
  {
    var r := After(1, [WarningFor(attempts[0])], rest);
    forall j | 0 <= j < |r.warnings|
      ensures Rejected(attempts[j]) && r.warnings[j] == WarningFor(attempts[j])
    {
      if j > 0 { assert attempts[j] == attempts[1..][j - 1]; }
    }
  }

  /** `Decides` pins the run down: the prompt loop is the only run it describes. */
  lemma {:induction false} DecidesUnique(attempts: seq<Attempt>, r: PromptRun)
    requires Decides(attempts, r)
    ensures r == Loop(attempts)
  {
    if attempts != [] && Rejected(attempts[0]) {
      var r' := DecidesTail(attempts, r);
      DecidesUnique(attempts[1..], r');
      assert r.warnings == [WarningFor(attempts[0])] + r'.warnings;
    }
  }

  /** A run that starts with a rejected line, seen from the second line on. */
  lemma DecidesTail(attempts: seq<Attempt>, r: PromptRun) returns (r': PromptRun)
    requires Decides(attempts, r)
    requires attempts != [] && Rejected(attempts[0])
    ensures r.used >= 1 && |r.warnings| >= 1
    ensures r' == PromptRun(r.decision, r.used - 1, r.warnings[1..])
    ensures Decides(attempts[1..], r')
  {
    assert r.used >= 2 || (r.decision.Exhausted? && r.used >= 1);
    r' := PromptRun(r.decision, r.used - 1, r.warnings[1..]);
    forall j | 0 <= j < |r'.warnings|
      ensures Rejected(attempts[1..][j]) && r'.warnings[j] == WarningFor(attempts[1..][j])
    {
      assert attempts[1..][j] == attempts[j + 1];
    }
  }

  /** One rejected line in front of the rest of the input. */
  lemma LoopStep(attempts: seq<Attempt>, i: nat, ws: seq<Warning>)
    requires i < |attempts| && Rejected(attempts[i])
    ensures After(i, ws, Loop(attempts[i..])) ==
            After(i + 1, ws + [WarningFor(attempts[i])], Loop(attempts[i + 1..]))
  {
    assert attempts[i..][1..] == attempts[i + 1..];
    assert ws + ([WarningFor(attempts[i])] + Loop(attempts[i + 1..]).warnings) ==
           ws + [WarningFor(attempts[i])] + Loop(attempts[i + 1..]).warnings;
  }

  /** The line that decides the run, after `i` rejected lines with warnings `ws`. */
  lemma LoopDecided(attempts: seq<Attempt>, i: nat, ws: seq<Warning>)
    requires i < |attempts| && !Rejected(attempts[i])
    ensures After(i, ws, Loop(attempts[i..])) ==
              PromptRun(if attempts[i].Cancel? then Cancelled else Chosen(attempts[i].p), i + 1, ws)
  {
  }

  /** The loop over the typed lines is the run `Decides` describes. */
  lemma PromptedDecides(lines: seq<string>)
    ensures Decides(Attempts(lines), Prompted(lines))
  {
    LoopDecides(Attempts(lines));
  }

  /** The prompt loop as written: `priority` stays `None` until a line in 1..4 is read;
      a blank line returns at once; a line past the end of input is `EOFError`. */
  method ReadPriority(lines: seq<string>) returns (run: PromptRun)
    ensures run == Prompted(lines)
  {
    ghost var attempts := Attempts(lines);
    var priority: Option<int> := None;
    var used: nat := 0;
    var warnings: seq<Warning> := [];
    assert attempts[0..] == attempts;
    while priority == None
      invariant used <= |lines|
      invariant priority.None? ==> Loop(attempts) == After(used, warnings, Loop(attempts[used..]))
      invariant priority.Some? ==> Loop(attempts) == PromptRun(Chosen(priority.value), used, warnings)
      decreases |lines| - used, priority.None?
    {
      if used == |lines| {
        assert attempts[used..] == [];
        return PromptRun(Exhausted, used, warnings);
      }
      var a := Classify(lines[used]);
      assert a == attempts[used];
      match a
      case Cancel =>
        LoopDecided(attempts, used, warnings);
        return PromptRun(Cancelled, used + 1, warnings);
      case NotInteger =>
        LoopStep(attempts, used, warnings);
        warnings := warnings + [MustBeInteger];
        used := used + 1;
      case OutOfRange(_) =>
        LoopStep(attempts, used, warnings);
        warnings := warnings + [MustBeOneToFour];
        used := used + 1;
      case Accept(p) =>
        LoopDecided(attempts, used, warnings);
        used := used + 1;
        priority := Some(p);
    }
    run := PromptRun(Chosen(priority.value), used, warnings);
  }

  /** The search key `str(p)`: one of "1".."4", and reading it back gives `p`. */
  function SearchKey(p: int): (k: string)
    requires 1 <= p <= 4
    ensures k in {"1", "2", "3", "4"}
    ensures ParseInt(k) == Some(p)
  {
    ParseIntOfDecimal(p);
    IntToDecimal(p)
  }

  /** Typing the decimal form of an integer is accepted exactly when it lies in 1..4,
      and otherwise rejected as out of range, never as a cancel. Only a form of more
      than `MaxStrDigits` digits is refused as a non-integer. */
  lemma ClassifyDecimal(n: int)
    ensures Classify(IntToDecimal(n)) ==
              if DecimalDigits(n) > MaxStrDigits then NotInteger
              else if 1 <= n <= 4 then Accept(n)
              else OutOfRange(n)
  {
    var s := IntToDecimal(n);
    ParseIntOfDecimal(n);
    ClassifySpec(s);
    assert !IsSpace(s[0]);
  }

  /** An accepted line is reduced to its canonical key: "03", " +3 " and "3" all
      search for "3". */
  lemma CanonicalKey(line: string, p: int)
    requires Classify(line) == Accept(p)
    ensures 1 <= p <= 4 && ParseInt(line) == Some(p)
    ensures ParseInt(SearchKey(p)) == ParseInt(line)
  {
    ClassifySpec(line);
  }
}
