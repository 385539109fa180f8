// frontend/resolve_conflicts.py: drops git conflict markers and the HEAD side
// of every conflict block, keeping the incoming side. The script's file read
// and write are replaced by a sequence of lines in and a sequence out.

module Conflicts {
  import opened Text
  import opened Types

  const BeginMarker: string := "<<<<<<< HEAD"
  const SeparatorMarker: string := "======="
  const EndMarker: string := ">>>>>>>"

  /** The script's two flags, `in_conflict` and `in_head`. */
  datatype Flags = Flags(inConflict: bool, inHead: bool)

  const Initial: Flags := Flags(false, false)

  /** The flag invariant: the HEAD side is only ever entered inside a block. */
  predicate Consistent(f: Flags) {
    f.inHead ==> f.inConflict
  }

  predicate IsBegin(line: string) { StartsWith(Strip(line), BeginMarker) }
  predicate IsSeparator(line: string) { StartsWith(Strip(line), SeparatorMarker) }
  predicate IsEnd(line: string) { StartsWith(Strip(line), EndMarker) }

  /** A line that the loop always skips with `continue`. */
  predicate IsMarkerLine(line: string) {
    IsBegin(line) || IsSeparator(line) || IsEnd(line)
  }

  /** One iteration of the loop: the flags afterwards, and whether the line is appended. */
  function Step(f: Flags, line: string): (Flags, bool)
  {
    if IsBegin(line) then (Flags(true, true), false)
    else if IsSeparator(line) then (f.(inHead := false), false)
    else if IsEnd(line) then (Flags(false, false), false)
    else (f, !(f.inConflict && f.inHead))
  }

  /** The loop over `lines` started in flags `f`: the final flags and the lines appended. */
  function Run(f: Flags, lines: seq<string>): (Flags, seq<string>)
    decreases |lines|
  {
    if lines == [] then (f, [])
    else
      var step := Step(f, lines[0]);
      var rest := Run(step.0, lines[1..]);
      (rest.0, if step.1 then [lines[0]] + rest.1 else rest.1)
  }

  /** The script's result: `new_lines` for the lines read from the file. */
  function Resolve(lines: seq<string>): seq<string> {
    Run(Initial, lines).1
  }

  /** The script's loop, with its two flags. */
  method ResolveConflicts(lines: seq<string>) returns (newLines: seq<string>)
    ensures newLines == Resolve(lines)
  {
    newLines := [];
    var inConflict, inHead := false, false;
    for i := 0 to |lines|
      invariant inHead ==> inConflict
      invariant newLines + Run(Flags(inConflict, inHead), lines[i..]).1 == Resolve(lines)
    {
      var line := lines[i];
      assert lines[i..][0] == line && lines[i..][1..] == lines[i + 1..];
      if StartsWith(Strip(line), BeginMarker) {
        inConflict, inHead := true, true;
        continue;
      }
      if StartsWith(Strip(line), SeparatorMarker) {
        inHead := false;
        continue;
      }
      if StartsWith(Strip(line), EndMarker) {
        inConflict, inHead := false, false;
        continue;
      }
      if inConflict {
        if !inHead {
          newLines := newLines + [line];
        }
      } else {
        newLines := newLines + [line];
      }
    }
  }

  /** The loop over a single line is one step. */
  lemma RunOne(f: Flags, line: string)
    ensures Run(f, [line]) == (Step(f, line).0, if Step(f, line).1 then [line] else [])
  {
    assert [line][1..] == [];
    assert Run(Step(f, line).0, []) == (Step(f, line).0, []);
    assert [line] + [] == [line];
  }

  /** Running the loop on `a + b` is running it on `a`, then on `b` from where `a` left the flags. */
  lemma {:induction false} RunAppend(f: Flags, a: seq<string>, b: seq<string>)
    decreases |a|
    ensures Run(f, a + b).0 == Run(Run(f, a).0, b).0
    ensures Run(f, a + b).1 == Run(f, a).1 + Run(Run(f, a).0, b).1
  {
    if a == [] {
      assert a + b == b;
    } else {
      assert (a + b)[0] == a[0] && (a + b)[1..] == a[1..] + b;
      var step := Step(f, a[0]);
      RunAppend(step.0, a[1..], b);
    }
  }

  /** Every emitted line is an unmodified input line, in the input's order. */
  lemma {:induction false} RunIsSubsequence(f: Flags, lines: seq<string>)
    decreases |lines|
    ensures IsSubsequence(Run(f, lines).1, lines)
  {
    if lines != [] {
      RunIsSubsequence(Step(f, lines[0]).0, lines[1..]);
    }
  }

  lemma ResolveIsSubsequence(lines: seq<string>)
    ensures IsSubsequence(Resolve(lines), lines)
  {
    RunIsSubsequence(Initial, lines);
  }

  /** No marker line survives: each of them reaches a `continue`. */
  lemma {:induction false} RunDropsMarkers(f: Flags, lines: seq<string>)
    decreases |lines|
    ensures forall i :: 0 <= i < |Run(f, lines).1| ==> !IsMarkerLine(Run(f, lines).1[i])
  {
    if lines != [] {
      RunDropsMarkers(Step(f, lines[0]).0, lines[1..]);
    }
  }

  lemma ResolveDropsMarkers(lines: seq<string>)
    ensures forall i :: 0 <= i < |Resolve(lines)| ==> !IsMarkerLine(Resolve(lines)[i])
  {
    RunDropsMarkers(Initial, lines);
  }

  /** Outside a block, lines without markers pass through untouched and the flags stay put. */
  lemma {:induction false} RunWithoutMarkers(f: Flags, lines: seq<string>)
    requires !f.inConflict
    requires forall i :: 0 <= i < |lines| ==> !IsMarkerLine(lines[i])
    ensures Run(f, lines) == (f, lines)
  {
    if lines != [] {
      assert !IsMarkerLine(lines[0]);
      assert Step(f, lines[0]) == (f, true);
      RunWithoutMarkers(f, lines[1..]);
      assert [lines[0]] + lines[1..] == lines;
    }
  }

  /** A document without conflict markers is returned unchanged. */
  lemma ResolveWithoutMarkers(lines: seq<string>)
    requires forall i :: 0 <= i < |lines| ==> !IsMarkerLine(lines[i])
    ensures Resolve(lines) == lines
  {
    RunWithoutMarkers(Initial, lines);
  }

  /** A second run over the script's own output changes nothing. */
  lemma ResolveIdempotent(lines: seq<string>)
    ensures Resolve(Resolve(lines)) == Resolve(lines)
  {
    ResolveDropsMarkers(lines);
    ResolveWithoutMarkers(Resolve(lines));
  }

  /** Whatever the input, the flags never claim the HEAD side outside a block. */
  lemma {:induction false} RunKeepsConsistent(f: Flags, lines: seq<string>)
    decreases |lines|
    requires Consistent(f)
    ensures Consistent(Run(f, lines).0)
  {
    if lines != [] {
      RunKeepsConsistent(Step(f, lines[0]).0, lines[1..]);
    }
  }

  /** Inside the HEAD side, non-marker lines are all skipped. */
  lemma {:induction false} RunInHead(lines: seq<string>)
    decreases |lines|
    requires forall i :: 0 <= i < |lines| ==> !IsMarkerLine(lines[i])
    ensures Run(Flags(true, true), lines) == (Flags(true, true), [])
  {
    if lines != [] {
      assert !IsMarkerLine(lines[0]);
      RunInHead(lines[1..]);
    }
  }

  /** Inside the incoming side, non-marker lines are all kept. */
  lemma {:induction false} RunInIncoming(lines: seq<string>)
    decreases |lines|
    requires forall i :: 0 <= i < |lines| ==> !IsMarkerLine(lines[i])
    ensures Run(Flags(true, false), lines) == (Flags(true, false), lines)
  {
    if lines != [] {
      assert !IsMarkerLine(lines[0]);
      RunInIncoming(lines[1..]);
      assert [lines[0]] + lines[1..] == lines;
    }
  }

  /** A well-formed block (begin marker, HEAD lines, separator, incoming lines,
      end marker) is replaced by its incoming lines; the rest is processed as before. */
  lemma WellFormedBlock(begin: string, head: seq<string>, sep: string,
                        incoming: seq<string>, end: string, rest: seq<string>)
    requires IsBegin(begin)
    requires IsSeparator(sep) && !IsBegin(sep)
    requires IsEnd(end) && !IsBegin(end) && !IsSeparator(end)
    requires forall i :: 0 <= i < |head| ==> !IsMarkerLine(head[i])
    requires forall i :: 0 <= i < |incoming| ==> !IsMarkerLine(incoming[i])
    ensures Resolve([begin] + head + [sep] + incoming + [end] + rest) == incoming + Resolve(rest)
  {
    var p1 := [begin];
    var p2 := p1 + head;
    var p3 := p2 + [sep];
    var p4 := p3 + incoming;
    var p5 := p4 + [end];
    RunOne(Initial, begin);
    RunInHead(head);
    RunAppend(Initial, p1, head);
    assert Run(Initial, p2) == (Flags(true, true), []);
    RunOne(Flags(true, true), sep);
    RunAppend(Initial, p2, [sep]);
    assert Run(Initial, p3) == (Flags(true, false), []);
    RunInIncoming(incoming);
    RunAppend(Initial, p3, incoming);
    assert [] + incoming == incoming;
    assert Run(Initial, p4) == (Flags(true, false), incoming);
    RunOne(Flags(true, false), end);
    RunAppend(Initial, p4, [end]);
    assert incoming + [] == incoming;
    assert Run(Initial, p5) == (Initial, incoming);
    RunAppend(Initial, p5, rest);
  }

  /** A separator line outside any block is dropped too: its check does not test `in_conflict`. */
  lemma StraySeparatorDropped(sep: string, rest: seq<string>)
    requires IsSeparator(sep) && !IsBegin(sep)
    ensures Resolve([sep] + rest) == Resolve(rest)
  {
    assert ([sep] + rest)[1..] == rest;
  }

  /** An end marker outside any block is dropped. */
  lemma StrayEndDropped(end: string, rest: seq<string>)
    requires IsEnd(end) && !IsBegin(end) && !IsSeparator(end)
    ensures Resolve([end] + rest) == Resolve(rest)
  {
    assert ([end] + rest)[1..] == rest;
  }

  /** Only `<<<<<<< HEAD` opens a block: a line such as `<<<<<<< feature` outside a
      block is ordinary content. */
  lemma OtherLabelKept(line: string, rest: seq<string>)
    requires StartsWith(Strip(line), "<<<<<<<") && !IsMarkerLine(line)
    ensures Resolve([line] + rest) == [line] + Resolve(rest)
  {
    assert ([line] + rest)[1..] == rest;
  }
}
