/** NUL-terminated strings in memory: strlen and stradd.  The loop condition of stradd compares
    the index with the character, so it concatenates only some strings. */
module CStrings {
  import opened Basics

  /** A C char is signed. */
  function Signed(c: Byte): int {
    if c < 128 then c else c - 256
  }

  ghost predicate Terminated(memory: seq<Byte>) {
    exists k :: 0 <= k < |memory| && memory[k] == 0
  }

  /** The characters before the first NUL. */
  function Chars(memory: seq<Byte>): (s: seq<Byte>)
    ensures s <= memory && 0 !in s
    ensures Terminated(memory) ==> |s| < |memory| && memory[|s|] == 0
  {
    if memory == [] || memory[0] == 0 then []
    else
      assert forall k :: 0 < k < |memory| ==> memory[k] == memory[1..][k - 1];
      [memory[0]] + Chars(memory[1..])
  }

  /** Where the loop of stradd stops, looking at the terminated string from index `i` on. */
  function Stop(s: seq<Byte>, i: nat): (j: nat)
    requires i <= |s|
    ensures i <= j <= |s|
    ensures forall k :: i <= k < j ==> k < Signed(s[k])
    ensures j < |s| ==> j >= Signed(s[j])
    decreases |s| - i
  {
    if i == |s| || i >= Signed(s[i]) then i else Stop(s, i + 1)
  }

  /** `count` characters of the source written after the text of the target. */
  function Spliced(target: seq<Byte>, source: seq<Byte>, count: nat): seq<Byte>
    requires count <= |source| && |Chars(target)| + count <= |target|
  {
    var n := |Chars(target)|;
    target[..n] + source[..count] + target[n + count..]
  }

  /** The same, cell by cell. */
  lemma SplicedIs(target: seq<Byte>, n: nat, source: seq<Byte>, count: nat, after: seq<Byte>)
    requires n == |Chars(target)| && count <= |source| && n + count <= |target| == |after|
    requires forall k :: 0 <= k < |target| ==>
      after[k] == if n <= k < n + count then source[k - n] else target[k]
    ensures after == Spliced(target, source, count)
  {
  }

  lemma TerminatorAt(memory: seq<Byte>, n: nat)
    requires Terminated(memory) && n <= |Chars(memory)|
    ensures memory[n] == 0 <==> n == |Chars(memory)|
    ensures n < |Chars(memory)| ==> Chars(memory)[n] == memory[n]
  {
    var s := Chars(memory);
    assert n < |s| ==> s[n] in s;
  }

  method StrLen(memory: array<Byte>) returns (n: nat)
    requires Terminated(memory[..])
    ensures n == |Chars(memory[..])|
  {
    n := 0;
    TerminatorAt(memory[..], 0);
    while memory[n] != 0
      invariant n <= |Chars(memory[..])| && (memory[n] == 0 <==> n == |Chars(memory[..])|)
      decreases |Chars(memory[..])| - n
    {
      n := n + 1;
      TerminatorAt(memory[..], n);
    }
  }

  /** The loop of stradd, `s` being the text of the source. */
  method CopyFrom(target: array<Byte>, start: nat, source: array<Byte>, ghost s: seq<Byte>) returns (i: nat)
    requires target != source && start + |s| < target.Length && |s| < source.Length
    requires source[|s|] == 0 && forall k :: 0 <= k < |s| ==> s[k] == source[k]
    modifies target
    ensures i == Stop(s, 0)
    ensures forall k :: 0 <= k < target.Length ==>
      target[k] == if start <= k <= start + i then source[k - start] else old(target[k])
  {
    i := 0;
    var index := start;
    while i < Signed(source[i])
      invariant i <= |s| && index == start + i && Stop(s, 0) == Stop(s, i)
      invariant forall k :: 0 <= k < target.Length ==>
        target[k] == if start <= k < index then source[k - start] else old(target[k])
      decreases |s| - i
    {
      target[index] := source[i];
      index := index + 1;
      i := i + 1;
    }
    target[index] := source[i];
  }

  /** The same, with what it leaves in the target. */
  method AddFrom(target: array<Byte>, start: nat, source: array<Byte>) returns (i: nat)
    requires target != source && Terminated(source[..])
    requires start == |Chars(target[..])| && start + |Chars(source[..])| < target.Length
    modifies target
    ensures i == Stop(Chars(source[..]), 0)
    ensures target[..] == Spliced(old(target[..]), source[..], i + 1)
  {
    ghost var s, src, before := Chars(source[..]), source[..], target[..];
    i := CopyFrom(target, start, source, s);
    SplicedIs(before, start, src, i + 1, target[..]);
  }

  /** The characters up to and including the one at which the loop stops follow the old text;
      the rest of the memory stays. */
  method StrAdd(target: array<Byte>, source: array<Byte>)
    requires target != source && Terminated(target[..]) && Terminated(source[..])
    requires |Chars(target[..])| + |Chars(source[..])| < target.Length
    modifies target
    ensures target[..] == Spliced(old(target[..]), source[..], Stop(Chars(source[..]), 0) + 1)
  {
    var index := StrLen(target);
    var i := AddFrom(target, index, source);
  }

  /** stradd copies the whole source, its terminator included, exactly if every character of the
      source is ASCII and exceeds its own index; otherwise the result is cut and left unterminated there. */
  lemma StrAddWholeIff(s: seq<Byte>)
    ensures Stop(s, 0) == |s| <==> forall k :: 0 <= k < |s| ==> k < s[k] < 128
  {
    var j := Stop(s, 0);
    assert j < |s| ==> !(j < s[j] < 128);
  }

  /** In that case the texts are concatenated. */
  lemma StrAddConcatenates(target: seq<Byte>, source: seq<Byte>)
    requires Terminated(source) && |Chars(target)| + |Chars(source)| < |target|
    requires forall k :: 0 <= k < |Chars(source)| ==> k < Chars(source)[k] < 128
    ensures Chars(Spliced(target, source, Stop(Chars(source), 0) + 1)) == Chars(target) + Chars(source)
  {
    StrAddWholeIff(Chars(source));
    CharsOf(Chars(target) + Chars(source), Spliced(target, source, |Chars(source)| + 1));
  }

  lemma {:induction false} CharsOf(t: seq<Byte>, memory: seq<Byte>)
    requires t < memory && memory[|t|] == 0 && 0 !in t
    ensures Chars(memory) == t
  {
    if t != [] {
      assert t == [t[0]] + t[1..];
      assert t[0] in t;
      CharsOf(t[1..], memory[1..]);
    }
  }
}
