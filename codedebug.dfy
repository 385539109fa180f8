// frontend/screens/CodeDebug.tsx: the bug-hunting exercise. The player edits
// the files of a challenge; running the code compares each file with its
// solution after collapsing whitespace, and a fully correct run pays the
// challenge's XP. The two-second delay before the reward is collapsed.

module CodeDebug {
  import opened Types
  import opened Text

  // ---------------------------------------------------------------- normalisation

  /** `replace(/\s+/g, ' ')`: every maximal whitespace run becomes one space. */
  function Collapse(s: string): string
    decreases |s|
  {
    if s == [] then []
    else if IsSpace(s[0]) then
      (if |s| > 1 && IsSpace(s[1]) then Collapse(s[1..]) else " " + Collapse(s[1..]))
    else [s[0]] + Collapse(s[1..])
  }

  /** The comparison key of a file: whitespace runs collapsed, then trimmed. */
  function Normalize(s: string): string {
    Strip(Collapse(s))
  }

  /** The characters of `s` that are not whitespace, in order. */
  function NonSpace(s: string): string
    decreases |s|
  {
    if s == [] then [] else (if IsSpace(s[0]) then [] else [s[0]]) + NonSpace(s[1..])
  }

  /** The only whitespace is a single plain space between two other characters. */
  predicate Collapsed(t: string) {
    forall i :: 0 <= i < |t| && IsSpace(t[i]) ==> t[i] == ' ' && (i + 1 < |t| ==> !IsSpace(t[i + 1]))
  }

  lemma {:induction false} NonSpaceAppend(a: string, b: string)
    decreases |a|
    ensures NonSpace(a + b) == NonSpace(a) + NonSpace(b)
  {
    if a == [] {
      assert a + b == b;
    } else {
      assert (a + b)[0] == a[0] && (a + b)[1..] == a[1..] + b;
      NonSpaceAppend(a[1..], b);
    }
  }

  /** Collapsing empties only the empty string and starts with whitespace exactly
      when the input does. */
  lemma {:induction false} CollapseHead(s: string)
    decreases |s|
    ensures (Collapse(s) == []) == (s == [])
    ensures s != [] ==> (IsSpace(Collapse(s)[0]) <==> IsSpace(s[0]))
  {
    if |s| > 1 && IsSpace(s[0]) && IsSpace(s[1]) {
      CollapseHead(s[1..]);
    }
  }

  /** Collapsing keeps every character that is not whitespace. */
  lemma {:induction false} CollapseNonSpace(s: string)
    decreases |s|
    ensures NonSpace(Collapse(s)) == NonSpace(s)
  {
    if s != [] {
      CollapseNonSpace(s[1..]);
      var rest := Collapse(s[1..]);
      if IsSpace(s[0]) && !(|s| > 1 && IsSpace(s[1])) {
        NonSpaceAppend(" ", rest);
      } else if !IsSpace(s[0]) {
        NonSpaceAppend([s[0]], rest);
      }
    }
  }

  /** Putting `c` before a collapsed string that does not start with whitespace
      when `c` is whitespace gives a collapsed string. */
  lemma ConsCollapsed(c: char, t: string)
    requires Collapsed(t)
    requires IsSpace(c) ==> c == ' ' && (t != [] ==> !IsSpace(t[0]))
    ensures Collapsed([c] + t)
  {
    var u := [c] + t;
    forall i | 0 <= i < |u| && IsSpace(u[i]) ensures u[i] == ' ' && (i + 1 < |u| ==> !IsSpace(u[i + 1])) {
      if i > 0 {
        assert u[i] == t[i - 1];
        if i + 1 < |u| {
          assert u[i + 1] == t[i];
        }
      }
    }
  }

  /** Collapsing leaves no run longer than one plain space. */
  lemma {:induction false} CollapseCollapsed(s: string)
    decreases |s|
    ensures Collapsed(Collapse(s))
  {
    if s != [] {
      CollapseCollapsed(s[1..]);
      var rest := Collapse(s[1..]);
      if IsSpace(s[0]) && !(|s| > 1 && IsSpace(s[1])) {
        if |s| > 1 {
          CollapseHead(s[1..]);
        }
        ConsCollapsed(' ', rest);
      } else if !IsSpace(s[0]) {
        ConsCollapsed(s[0], rest);
      }
    }
  }

  /** A collapsed string is left as it is. */
  lemma {:induction false} CollapseFixed(t: string)
    decreases |t|
    requires Collapsed(t)
    ensures Collapse(t) == t
  {
    if t != [] {
      assert Collapsed(t[1..]) by {
        forall i | 0 <= i < |t[1..]| && IsSpace(t[1..][i])
          ensures t[1..][i] == ' ' && (i + 1 < |t[1..]| ==> !IsSpace(t[1..][i + 1]))
        {
          assert t[i + 1] == t[1..][i];
        }
      }
      CollapseFixed(t[1..]);
      assert t == [t[0]] + t[1..];
    }
  }

  /** Trimming the start drops whitespace only. */
  lemma {:induction false} TrimStartNonSpace(s: string)
    decreases |s|
    ensures NonSpace(TrimStart(s)) == NonSpace(s)
  {
    if s != [] && IsSpace(s[0]) {
      TrimStartNonSpace(s[1..]);
    }
  }

  /** Trimming the end drops whitespace only. */
  lemma {:induction false} TrimEndNonSpace(s: string)
    decreases |s|
    ensures NonSpace(TrimEnd(s)) == NonSpace(s)
  {
    if s != [] && IsSpace(s[|s| - 1]) {
      var init := s[..|s| - 1];
      TrimEndNonSpace(init);
      assert s == init + [s[|s| - 1]];
      NonSpaceAppend(init, [s[|s| - 1]]);
      assert NonSpace([s[|s| - 1]]) == [];
    }
  }

  /** A slice of a collapsed string is collapsed. */
  lemma SliceCollapsed(t: string, lo: nat, hi: nat)
    requires Collapsed(t) && lo <= hi <= |t|
    ensures Collapsed(t[lo..hi])
  {
    forall i | 0 <= i < hi - lo && IsSpace(t[lo..hi][i])
      ensures t[lo..hi][i] == ' ' && (i + 1 < hi - lo ==> !IsSpace(t[lo..hi][i + 1]))
    {
      assert t[lo..hi][i] == t[lo + i];
    }
  }

  /** The normalised text has the same non-whitespace characters as the input,
      each whitespace run reduced to one space, and no space at either end. */
  lemma NormalizeShape(s: string)
    ensures NonSpace(Normalize(s)) == NonSpace(s)
    ensures Collapsed(Normalize(s)) && NoEdgeSpace(Normalize(s))
  {
    var c := Collapse(s);
    CollapseNonSpace(s);
    CollapseCollapsed(s);
    CollapseHead(s);
    var a := TrimStart(c);
    TrimStartShape(c);
    TrimStartNonSpace(c);
    SliceCollapsed(c, |c| - |a|, |c|);
    var b := TrimEnd(a);
    TrimEndShape(a);
    TrimEndNonSpace(a);
    SliceCollapsed(a, 0, |b|);
    StripShape(c);
  }

  /** Normalising twice is normalising once. */
  lemma NormalizeIdempotent(s: string)
    ensures Normalize(Normalize(s)) == Normalize(s)
  {
    var t := Normalize(s);
    NormalizeShape(s);
    CollapseFixed(t);
    StripFixed(t);
  }

  /** Leading whitespace never makes two files differ. */
  lemma NormalizeLeadingSpace(c: char, s: string)
    requires IsSpace(c)
    ensures Normalize([c] + s) == Normalize(s)
  {
    assert ([c] + s)[1..] == s;
    if s != [] && IsSpace(s[0]) {
      assert Collapse([c] + s) == Collapse(s);
    } else {
      assert Collapse([c] + s) == " " + Collapse(s);
      assert TrimStart(" " + Collapse(s)) == TrimStart((" " + Collapse(s))[1..]);
      assert (" " + Collapse(s))[1..] == Collapse(s);
    }
  }

  /** The length of a whitespace run does not matter: dropping one whitespace
      character from a run leaves the collapsed text unchanged. */
  lemma {:induction false} CollapseRunLength(a: string, c: char, d: char, s: string)
    decreases |a|
    requires IsSpace(c) && IsSpace(d)
    ensures Collapse(a + [c, d] + s) == Collapse(a + [d] + s)
  {
    var x, y := a + [c, d] + s, a + [d] + s;
    if a == [] {
      assert x[1..] == y;
      assert x[0] == c && x[1] == d;
    } else {
      assert x[0] == y[0] == a[0];
      assert x[1..] == a[1..] + [c, d] + s;
      assert y[1..] == a[1..] + [d] + s;
      assert IsSpace(x[1]) == IsSpace(y[1]);
      CollapseRunLength(a[1..], c, d, s);
    }
  }

  /** Files that differ only in the length of a whitespace run compare equal. */
  lemma NormalizeRunLength(a: string, c: char, d: char, s: string)
    requires IsSpace(c) && IsSpace(d)
    ensures Normalize(a + [c, d] + s) == Normalize(a + [d] + s)
  {
    CollapseRunLength(a, c, d, s);
  }

  // ---------------------------------------------------------------- the exercise

  /** `fileContents[file.id] || ''`. */
  function Stored(contents: map<string, string>, id: string): string {
    if id in contents then contents[id] else ""
  }

  /** One file passes when its normalised content equals its normalised solution. */
  predicate FilePasses(f: CodeFile, contents: map<string, string>) {
    Normalize(Stored(contents, f.id)) == Normalize(f.correctCode)
  }

  /** The error entries of the failing files, in file order. */
  function Failures(files: seq<CodeFile>, contents: map<string, string>): seq<string>
    decreases |files|
  {
    if files == [] then []
    else
      var last := files[|files| - 1];
      Failures(files[..|files| - 1], contents) + (if FilePasses(last, contents) then [] else ["Ainda há bugs em " + last.name])
  }

  /** One more file adds its entry, if it fails, at the end. */
  lemma FailuresSnoc(files: seq<CodeFile>, i: nat, contents: map<string, string>)
    requires i < |files|
    ensures Failures(files[..i + 1], contents) ==
      Failures(files[..i], contents) + (if FilePasses(files[i], contents) then [] else ["Ainda há bugs em " + files[i].name])
  {
    assert files[..i + 1][..i] == files[..i];
  }

  /** The positions of the failing files. */
  ghost function FailingIndices(files: seq<CodeFile>, contents: map<string, string>): set<int> {
    set k | 0 <= k < |files| && !FilePasses(files[k], contents)
  }

  /** One more file adds its position exactly when it fails. */
  lemma FailingIndicesSnoc(files: seq<CodeFile>, n: nat, contents: map<string, string>)
    requires n < |files|
    ensures |FailingIndices(files[..n + 1], contents)| ==
      |FailingIndices(files[..n], contents)| + (if FilePasses(files[n], contents) then 0 else 1)
  {
    var before := FailingIndices(files[..n], contents);
    var after := FailingIndices(files[..n + 1], contents);
    forall k ensures k in after <==> k in before || (k == n && !FilePasses(files[n], contents)) {
      if 0 <= k < n {
        assert files[..n + 1][k] == files[..n][k];
      }
    }
    if FilePasses(files[n], contents) {
      assert after == before;
    } else {
      assert n !in before;
      assert after == before + {n};
    }
  }

  /** The error entry of each failing file, counted: one per failing file. */
  lemma {:induction false} FailuresCount(files: seq<CodeFile>, contents: map<string, string>)
    decreases |files|
    ensures |Failures(files, contents)| == |FailingIndices(files, contents)|
  {
    if files != [] {
      var n := |files| - 1;
      FailuresCount(files[..n], contents);
      FailuresSnoc(files, n, contents);
      FailingIndicesSnoc(files, n, contents);
      assert files[..n + 1] == files;
    }
  }

  /** There are no error entries exactly when every file passes. */
  lemma FailuresEmptyIff(files: seq<CodeFile>, contents: map<string, string>)
    ensures Failures(files, contents) == [] <==> forall k :: 0 <= k < |files| ==> FilePasses(files[k], contents)
  {
    FailuresCount(files, contents);
    var bad := FailingIndices(files, contents);
    if Failures(files, contents) == [] {
      assert |bad| == 0;
      forall k | 0 <= k < |files| ensures FilePasses(files[k], contents) {
        assert k !in bad;
      }
    } else {
      assert bad != {};
      var k :| k in bad;
    }
  }

  /** The files' contents when a challenge starts: each id holds its initial code. */
  function InitialContents(files: seq<CodeFile>): map<string, string>
    decreases |files|
  {
    if files == [] then map[]
    else
      var last := files[|files| - 1];
      InitialContents(files[..|files| - 1])[last.id := last.initialCode]
  }

  /** The starting contents hold exactly the challenge's file ids, and, when ids
      are distinct, each file's initial code. */
  lemma {:induction false} InitialContentsSpec(files: seq<CodeFile>)
    decreases |files|
    ensures InitialContents(files).Keys == set f | f in files :: f.id
    ensures (forall a, b :: 0 <= a < b < |files| ==> files[a].id != files[b].id) ==>
      forall k :: 0 <= k < |files| ==> InitialContents(files)[files[k].id] == files[k].initialCode
  {
    if files != [] {
      var init := files[..|files| - 1];
      InitialContentsSpec(init);
      assert files == init + [files[|files| - 1]];
    }
  }

  /** The loop of `handleRunCode`: every file is checked in order and each failing
      one adds its entry. */
  method CollectFailures(files: seq<CodeFile>, contents: map<string, string>) returns (foundErrors: seq<string>, allCorrect: bool)
    ensures foundErrors == Failures(files, contents)
    ensures allCorrect <==> forall k :: 0 <= k < |files| ==> FilePasses(files[k], contents)
    ensures allCorrect <==> foundErrors == []
  {
    allCorrect := true;
    foundErrors := [];
    for i := 0 to |files|
      invariant foundErrors == Failures(files[..i], contents)
      invariant allCorrect <==> foundErrors == []
    {
      var file := files[i];
      FailuresSnoc(files, i, contents);
      if !FilePasses(file, contents) {
        allCorrect := false;
        foundErrors := foundErrors + ["Ainda há bugs em " + file.name];
      }
    }
    assert files[..|files|] == files;
    FailuresEmptyIff(files, contents);
  }

  datatype TestResult = NoResult | Success | Failure

  /** The screen's state while a challenge is open or the list is shown. */
  class DebugScreen {
    var selectedChallenge: Option<DebugChallenge>
    var activeFileId: Option<string>
    var fileContents: map<string, string>
    var showHints: bool
    var testResult: TestResult
    var errorMessage: string

    constructor ()
      ensures selectedChallenge.None? && activeFileId.None? && fileContents == map[]
      ensures !showHints && testResult == NoResult && errorMessage == ""
    {
      selectedChallenge := None;
      activeFileId := None;
      fileContents := map[];
      showHints := false;
      testResult := NoResult;
      errorMessage := "";
    }

    /** `handleStartChallenge`: open a challenge with its initial code in every file. */
    method StartChallenge(challenge: DebugChallenge)
      requires |challenge.files| > 0
      modifies this
      ensures selectedChallenge == Some(challenge) && activeFileId == Some(challenge.files[0].id)
      ensures fileContents == InitialContents(challenge.files)
      ensures testResult == NoResult && errorMessage == "" && !showHints
    {
      selectedChallenge := Some(challenge);
      activeFileId := Some(challenge.files[0].id);
      var initial: map<string, string> := map[];
      for i := 0 to |challenge.files|
        invariant initial == InitialContents(challenge.files[..i])
      {
        assert challenge.files[..i + 1][..i] == challenge.files[..i];
        initial := initial[challenge.files[i].id := challenge.files[i].initialCode];
      }
      assert challenge.files[..|challenge.files|] == challenge.files;
      fileContents := initial;
      testResult := NoResult;
      errorMessage := "";
      showHints := false;
    }

    /** `handleCodeChange`: only the edited file's entry changes. */
    method CodeChange(fileId: string, newCode: string)
      modifies this
      ensures fileContents == old(fileContents)[fileId := newCode]
      ensures forall k :: k != fileId ==> (k in fileContents <==> k in old(fileContents))
      ensures forall k :: k != fileId && k in fileContents ==> fileContents[k] == old(fileContents)[k]
      ensures selectedChallenge == old(selectedChallenge) && activeFileId == old(activeFileId)
      ensures testResult == old(testResult) && errorMessage == old(errorMessage) && showHints == old(showHints)
    {
      fileContents := fileContents[fileId := newCode];
    }

    /** `handleRunCode`: check every file. A clean run reports success and pays the
        challenge's XP (after the delay, which is collapsed here) and closes the
        challenge; otherwise the message names each failing file and nothing is paid. */
    method RunCode() returns (reward: Option<nat>)
      modifies this
      ensures old(selectedChallenge).None? ==>
        reward.None? && testResult == old(testResult) && errorMessage == old(errorMessage) && selectedChallenge.None?
      ensures old(selectedChallenge).Some? ==>
        var files := old(selectedChallenge).value.files;
        var failures := Failures(files, old(fileContents));
        && (failures == [] ==>
              testResult == Success && errorMessage == ""
              && reward == Some(old(selectedChallenge).value.xpReward) && selectedChallenge.None?)
        && (failures != [] ==>
              testResult == Failure && errorMessage == Join(failures, ", ") + ". Continue debugando!"
              && reward.None? && selectedChallenge == old(selectedChallenge))
      ensures fileContents == old(fileContents) && activeFileId == old(activeFileId) && showHints == old(showHints)
    {
      if selectedChallenge.None? {
        return None;
      }
      var challenge := selectedChallenge.value;
      var files := challenge.files;
      var contents := fileContents;
      var foundErrors, allCorrect := CollectFailures(files, contents);
      if allCorrect {
        testResult := Success;
        errorMessage := "";
        reward := Some(challenge.xpReward);
        selectedChallenge := None;
      } else {
        testResult := Failure;
        errorMessage := Join(foundErrors, ", ") + ". Continue debugando!";
        reward := None;
      }
    }
  }
}
