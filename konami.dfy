/** The Easter egg of script_fixed.js: every keydown anywhere on the page pushes
    the event's key onto `konamiCode`, the buffer is cut back to its last ten entries,
    and when the comma-joined buffer equals the comma-joined pattern the page body
    gets the shake animation. */
module Konami {
  import opened Text

  const WINDOW: nat := 10

  const PATTERN: seq<string> := ["ArrowUp", "ArrowUp", "ArrowDown", "ArrowDown",
                                 "ArrowLeft", "ArrowRight", "ArrowLeft", "ArrowRight", "b", "a"]

  const SHAKE := "shake 0.5s"

  /** `s.slice(-n)`: the last `n` elements, or all of them when there are fewer. */
  function LastN<T>(s: seq<T>, n: nat): (r: seq<T>)
    ensures |r| == if |s| < n then |s| else n
    ensures r == s[|s| - |r|..]
  {
    if |s| <= n then s else s[|s| - n..]
  }

  /** Keeping the last `n` of a window extended by one element is keeping the last
      `n` of the whole history extended by that element: the buffer slides. */
  lemma LastNSlides<T>(h: seq<T>, x: T, n: nat)
    ensures LastN(LastN(h, n) + [x], n) == LastN(h + [x], n)
  {
    var w := LastN(h, n);
    if |h| >= n && n > 0 {
      assert (w + [x])[1..] == h[|h| - n + 1..] + [x];
      assert (h + [x])[|h| + 1 - n..] == h[|h| - n + 1..] + [x];
    }
  }

  /** What `KeyboardEvent.key` can hold: a named key or printed character, never
      empty, and containing a comma only as the comma key itself. */
  predicate IsKeyValue(k: string) {
    k == "," || (k != "" && ',' !in k)
  }

  /** Comparing comma-joins of key values with a pattern of nonempty, comma-free
      entries is comparing the sequences themselves. */
  lemma {:induction false} JoinedMatchIff(buffer: seq<string>, pattern: seq<string>)
    requires forall i :: 0 <= i < |buffer| ==> IsKeyValue(buffer[i])
    requires |pattern| >= 1
    requires forall i :: 0 <= i < |pattern| ==> pattern[i] != "" && ',' !in pattern[i]
    ensures Join(buffer, ',') == Join(pattern, ',') <==> buffer == pattern
  {
    if Join(buffer, ',') == Join(pattern, ',') {
      SplitJoin(pattern, ',');
      SplitEachSeparatorFree(pattern, ',');
      if |buffer| == 0 {
        assert false;
      }
      SplitJoin(buffer, ',');
      assert SplitEach(buffer, ',') == pattern;
      forall i | 0 <= i < |buffer|
        ensures ',' !in buffer[i]
      {
        if buffer[i] == "," {
          SplitEachOfSeparator(buffer, ',', i);
        }
      }
      SplitEachSeparatorFree(buffer, ',');
    }
  }

  /** The page compares `buffer.join(',')` with `pattern.join(',')`; for buffers of
      real key values this is exactly the comparison of the two sequences. */
  lemma {:induction false} JoinedMatchIsPattern(buffer: seq<string>)
    requires forall i :: 0 <= i < |buffer| ==> IsKeyValue(buffer[i])
    ensures JoinedMatch(buffer) <==> buffer == PATTERN
  {
    JoinedMatchIff(buffer, PATTERN);
  }

  /** Joining an entry that holds a comma reads like joining its two halves. */
  lemma {:induction false} JoinMergesComma(a: string, b: string, tail: seq<string>)
    requires |tail| >= 1
    ensures Join([a + [','] + b] + tail, ',') == Join([a, b] + tail, ',')
  {
    assert ([a + [','] + b] + tail)[1..] == tail;
    assert ([a, b] + tail)[1..] == [b] + tail;
    assert ([b] + tail)[1..] == tail;
  }

  /** Merging the first two entries of a sequence into one holding a comma keeps
      the join and shortens the sequence. */
  lemma {:induction false} CommaEntryCollides(pattern: seq<string>)
    requires |pattern| >= 3
    ensures exists b: seq<string> :: |b| == |pattern| - 1 && Join(b, ',') == Join(pattern, ',')
  {
    var tail := pattern[2..];
    var b := [pattern[0] + [','] + pattern[1]] + tail;
    JoinMergesComma(pattern[0], pattern[1], tail);
    assert pattern == [pattern[0], pattern[1]] + tail;
    assert |b| == |pattern| - 1;
  }

  /** Without that restriction the joined comparison is weaker than sequence equality:
      a nine-element buffer whose first entry holds a comma matches too. */
  lemma JoinedMatchOfCommaEntry()
    ensures exists b: seq<string> :: |b| == 9 && JoinedMatch(b) && b != PATTERN
  {
    CommaEntryCollides(PATTERN);
  }

  /** The listener's test: `konamiCode.join(',') === konamiPattern.join(',')`. */
  predicate JoinedMatch(buffer: seq<string>) {
    Join(buffer, ',') == Join(PATTERN, ',')
  }

  /** The listener's state: the module-level `konamiCode` array. */
  class Detector {
    var buffer: seq<string>
    var bodyAnimation: string
    /** Every key seen so far, oldest first. */
    ghost var history: seq<string>

    ghost predicate Valid()
      reads this
    {
      buffer == LastN(history, WINDOW)
    }

    constructor ()
      ensures Valid() && history == [] && buffer == [] && bodyAnimation == ""
    {
      buffer, bodyAnimation, history := [], "", [];
    }

    /** A keydown event with key `key`; `egg` says whether the Easter egg fired. */
    method KeyDown(key: string) returns (egg: bool)
      requires Valid()
      modifies this
      ensures Valid() && history == old(history) + [key]
      ensures |buffer| <= WINDOW && buffer == LastN(old(history) + [key], WINDOW)
      ensures egg <==> JoinedMatch(buffer)
      ensures (forall i :: 0 <= i < |buffer| ==> IsKeyValue(buffer[i])) ==> (egg <==> buffer == PATTERN)
      ensures bodyAnimation == if egg then SHAKE else old(bodyAnimation)
    {
      LastNSlides(history, key, WINDOW);
      buffer := buffer + [key];
      buffer := LastN(buffer, WINDOW);
      history := history + [key];
      egg := JoinedMatch(buffer);
      if forall i :: 0 <= i < |buffer| ==> IsKeyValue(buffer[i]) {
        JoinedMatchIsPattern(buffer);
      }
      if egg {
        bodyAnimation := SHAKE;
      }
    }
  }
}
