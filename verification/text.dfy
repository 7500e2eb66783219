/**
 * Substring tests on strings, as Python's `pattern in text`, and the
 * order-preserving filter `[t for t in texts if pattern in t]`.
 */
module Text {
  /** `pattern` occurs in `text` starting at index `i`. */
  predicate OccursAt(pattern: string, text: string, i: int)
  {
    0 <= i && i + |pattern| <= |text| && text[i..i + |pattern|] == pattern
  }

  /** Python's `pattern in text`: some window of `text` equals `pattern`. */
  predicate Contains(text: string, pattern: string)
  {
    exists i | 0 <= i <= |text| - |pattern| :: OccursAt(pattern, text, i)
  }

  /** The texts that contain `pattern`, in their original order. */
  function Containing(texts: seq<string>, pattern: string): (r: seq<string>)
    ensures |r| <= |texts|
    ensures forall t :: t in r <==> t in texts && Contains(t, pattern)
    decreases |texts|
  {
    if texts == [] then []
    else
      var init := texts[..|texts| - 1];
      var last := texts[|texts| - 1];
      assert texts == init + [last];
      Containing(init, pattern) + (if Contains(last, pattern) then [last] else [])
  }

  /** `Containing`'s step case at `texts + [t]`, stated for use in proofs of loops that filter one text at a time. */
  lemma ContainingSnoc(texts: seq<string>, t: string, pattern: string)
    ensures Containing(texts + [t], pattern) ==
              Containing(texts, pattern) + (if Contains(t, pattern) then [t] else [])
  {
    assert (texts + [t])[..|texts|] == texts;
  }

  /** `ContainingSnoc` at the prefixes `texts[..i]` and `texts[..i + 1]`, as a loop over `texts` needs it. */
  lemma ContainingPrefix(texts: seq<string>, i: nat, pattern: string)
    requires i < |texts|
    ensures Containing(texts[..i + 1], pattern) ==
              Containing(texts[..i], pattern) + (if Contains(texts[i], pattern) then [texts[i]] else [])
  {
    assert texts[..i + 1] == texts[..i] + [texts[i]];
    ContainingSnoc(texts[..i], texts[i], pattern);
  }

  /** Filtering distributes over concatenation: the filter keeps order. */
  lemma {:induction false} ContainingAppend(a: seq<string>, b: seq<string>, pattern: string)
    ensures Containing(a + b, pattern) == Containing(a, pattern) + Containing(b, pattern)
    decreases |b|
  {
    if b == [] {
      assert a + b == a;
    } else {
      var init, last := b[..|b| - 1], b[|b| - 1];
      assert a + b == (a + init) + [last];
      assert b == init + [last];
      ContainingSnoc(a + init, last, pattern);
      ContainingSnoc(init, last, pattern);
      ContainingAppend(a, init, pattern);
    }
  }
}
