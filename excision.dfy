// frontend/fix_constants.py: finds the lines that contain a marker comment and,
// when there are at least two, deletes the half-open range between the first two.
// The file read and write are replaced by a sequence of lines in and out; the
// console messages become the fields of the outcome.

module Excision {
  import opened Text

  const Marker: string := "// --- DYNAMIC LEVEL GENERATION FOR INFINITE SCROLL ---"

  /** `marker in line`: substring containment, not equality. */
  predicate HasMarker(line: string) {
    Contains(line, Marker)
  }

  /** The list comprehension `indices`: the positions of the marker lines. */
  function Indices(lines: seq<string>): seq<nat>
    decreases |lines|
  {
    if lines == [] then []
    else
      var prev := Indices(lines[..|lines| - 1]);
      if HasMarker(lines[|lines| - 1]) then prev + [|lines| - 1] else prev
  }

  /** Only marker lines are listed, in ascending order. */
  lemma {:induction false} IndicesSound(lines: seq<string>)
    decreases |lines|
    ensures forall k :: 0 <= k < |Indices(lines)| ==> Indices(lines)[k] < |lines| && HasMarker(lines[Indices(lines)[k]])
    ensures forall k, m :: 0 <= k < m < |Indices(lines)| ==> Indices(lines)[k] < Indices(lines)[m]
  {
    if lines != [] {
      var n := |lines| - 1;
      var init := lines[..n];
      IndicesSound(init);
      var prev := Indices(init);
      var r := Indices(lines);
      assert r == if HasMarker(lines[n]) then prev + [n] else prev;
      forall k | 0 <= k < |prev| ensures prev[k] < n && lines[prev[k]] == init[prev[k]] {
      }
    }
  }

  /** Every marker line is listed. */
  lemma {:induction false} IndicesComplete(lines: seq<string>, i: nat)
    decreases |lines|
    requires i < |lines|
    ensures HasMarker(lines[i]) ==> i in Indices(lines)
  {
    if i < |lines| - 1 {
      IndicesComplete(lines[..|lines| - 1], i);
    }
  }

  /** Number of marker lines. */
  function Count(lines: seq<string>): nat {
    |Indices(lines)|
  }

  /** What the script does: either it rewrites the file, reporting the deleted
      range (printed as lines `startDelete + 1` to `endDelete`), or it reports how
      many markers it found and writes nothing. */
  datatype Outcome =
    | Excised(newLines: seq<string>, startDelete: nat, endDelete: nat)
    | TooFew(found: nat)

  function Fix(lines: seq<string>): Outcome {
    var indices := Indices(lines);
    if |indices| >= 2 then
      IndicesSound(lines);
      Excised(lines[..indices[0]] + lines[indices[1]..], indices[0], indices[1])
    else
      TooFew(|indices|)
  }

  /** The file's content after the script ran. */
  function After(lines: seq<string>): seq<string> {
    match Fix(lines)
    case Excised(newLines, _, _) => newLines
    case TooFew(_) => lines
  }

  /** No index holds a marker. */
  lemma {:induction false} NoMarkersCountZero(lines: seq<string>)
    decreases |lines|
    requires forall i :: 0 <= i < |lines| ==> !HasMarker(lines[i])
    ensures Count(lines) == 0
  {
    if lines != [] {
      NoMarkersCountZero(lines[..|lines| - 1]);
    }
  }

  /** Counting distributes over concatenation. */
  lemma {:induction false} CountAppend(a: seq<string>, b: seq<string>)
    decreases |b|
    ensures Count(a + b) == Count(a) + Count(b)
  {
    if b == [] {
      assert a + b == a;
    } else {
      var b' := b[..|b| - 1];
      assert (a + b)[..|a + b| - 1] == a + b';
      assert (a + b)[|a + b| - 1] == b[|b| - 1];
      CountAppend(a, b');
    }
  }

  /** In an ascending list, a value below the second entry other than the first is absent. */
  lemma BelowSecondNotListed(r: seq<nat>, i: nat)
    requires |r| >= 2 && forall k, m :: 0 <= k < m < |r| ==> r[k] < r[m]
    requires i < r[1] && i != r[0]
    ensures i !in r
  {
    forall k | 0 <= k < |r|
      ensures r[k] != i
    {
      if k >= 2 {
        assert r[1] < r[k];
      }
    }
  }

  /** With at least two markers the first two delimit the deleted range, and no
      marker lies strictly between them. */
  lemma FirstTwo(lines: seq<string>)
    requires Count(lines) >= 2
    ensures var r := Indices(lines);
      && r[0] < r[1] < |lines|
      && HasMarker(lines[r[0]]) && HasMarker(lines[r[1]])
      && (forall i :: r[0] < i < r[1] ==> !HasMarker(lines[i]))
      && (forall i :: 0 <= i < r[0] ==> !HasMarker(lines[i]))
  {
    IndicesSound(lines);
    var r := Indices(lines);
    forall i | 0 <= i < r[1] && i != r[0]
      ensures !HasMarker(lines[i])
    {
      BelowSecondNotListed(r, i);
      IndicesComplete(lines, i);
    }
  }

  /** The deleted range holds exactly one marker, the first. */
  lemma ExcisionCount(lines: seq<string>, first: nat, second: nat)
    requires first < second <= |lines| && HasMarker(lines[first])
    requires forall i :: 0 <= i < second && i != first ==> !HasMarker(lines[i])
    ensures Count(lines[..first] + lines[second..]) == Count(lines) - 1
  {
    var pre, mid, post := lines[..first], lines[first + 1..second], lines[second..];
    assert lines == pre + [lines[first]] + mid + post;
    assert forall i :: 0 <= i < |mid| ==> mid[i] == lines[first + 1 + i];
    NoMarkersCountZero(pre);
    NoMarkersCountZero(mid);
    var one := [lines[first]];
    assert Count(one) == 1 by {
      assert one[..|one| - 1] == [];
      assert Indices(one[..|one| - 1]) == [];
      assert HasMarker(one[|one| - 1]);
    }
    CountAppend(pre, one);
    CountAppend(pre + one, mid);
    CountAppend(pre + one + mid, post);
    CountAppend(pre, post);
  }

  /** After the deletion the old second marker is the first one. */
  lemma ExcisionNewFirst(lines: seq<string>, first: nat, second: nat)
    requires first < second < |lines| && HasMarker(lines[second])
    requires forall i :: 0 <= i < first ==> !HasMarker(lines[i])
    ensures var out := lines[..first] + lines[second..];
      out[first] == lines[second] && Indices(out) != [] && Indices(out)[0] == first
  {
    var out := lines[..first] + lines[second..];
    assert out[first] == lines[second];
    IndicesSound(out);
    IndicesComplete(out, first);
    var ro := Indices(out);
    var k :| 0 <= k < |ro| && ro[k] == first;
    assert ro[0] <= first;
    assert forall i :: 0 <= i < first ==> out[i] == lines[i];
    assert HasMarker(out[ro[0]]);
  }

  /** With two or more markers: the output keeps everything before the first
      marker and everything from the second one on, it is shorter by exactly the
      distance between them, and it holds exactly one marker line fewer; the old
      second marker is now the first one. */
  lemma ExcisionShape(lines: seq<string>)
    requires Count(lines) >= 2
    ensures Fix(lines).Excised?
    ensures var o := Fix(lines); var first, second := o.startDelete, o.endDelete;
      && first < second < |lines|
      && o.newLines == lines[..first] + lines[second..]
      && |o.newLines| == |lines| - (second - first)
      && (forall i :: 0 <= i < first ==> o.newLines[i] == lines[i])
      && (forall i :: second <= i < |lines| ==> o.newLines[i - (second - first)] == lines[i])
      && Count(o.newLines) == Count(lines) - 1
      && o.newLines[first] == lines[second] && HasMarker(o.newLines[first])
      && Indices(o.newLines)[0] == first
  {
    FirstTwo(lines);
    var r := Indices(lines);
    ExcisionCount(lines, r[0], r[1]);
    ExcisionNewFirst(lines, r[0], r[1]);
  }

  /** Fewer than two markers: nothing is written, and the reported count is the number found. */
  lemma TooFewUnchanged(lines: seq<string>)
    requires Count(lines) < 2
    ensures Fix(lines) == TooFew(Count(lines))
    ensures After(lines) == lines
  {
  }

  /** A document with exactly two markers is a fixed point after one run. */
  lemma TwoMarkersSettle(lines: seq<string>)
    requires Count(lines) == 2
    ensures Fix(After(lines)) == TooFew(1)
    ensures After(After(lines)) == After(lines)
  {
    ExcisionShape(lines);
  }

  /** With three or more markers a second run deletes another block, so the
      script is not idempotent in general. */
  lemma ThreeMarkersNotIdempotent(lines: seq<string>)
    requires Count(lines) >= 3
    ensures Fix(After(lines)).Excised?
    ensures |After(After(lines))| < |After(lines)|
  {
    ExcisionShape(lines);
    ExcisionShape(After(lines));
  }
}
