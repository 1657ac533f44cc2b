/** Spelling lists of small numbers in an alphabet of distinct characters, and reading them back. */
module Alphabets {
  import opened Prelude

  const HEX := "0123456789abcdef"

  ghost predicate Distinct(alphabet: string) {
    forall i, j :: 0 <= i < j < |alphabet| ==> alphabet[i] != alphabet[j]
  }

  /** The place of a character among the first `n` of an alphabet. */
  function IndexIn(alphabet: string, n: nat, c: char): (r: Option<int>)
    requires n <= |alphabet|
    ensures r.Some? ==> 0 <= r.value < n && alphabet[r.value] == c
    ensures r.None? <==> c !in alphabet[..n]
  {
    if n == 0 then None
    else if alphabet[n - 1] == c then Some(n - 1)
    else IndexIn(alphabet, n - 1, c)
  }

  function IndexOf(alphabet: string, c: char): (r: Option<int>)
    ensures r.Some? ==> 0 <= r.value < |alphabet| && alphabet[r.value] == c
    ensures r.None? <==> c !in alphabet
  {
    assert alphabet[..|alphabet|] == alphabet;
    IndexIn(alphabet, |alphabet|, c)
  }

  predicate InAlphabet(alphabet: string, values: seq<int>) {
    forall i :: 0 <= i < |values| ==> 0 <= values[i] < |alphabet|
  }

  function Spell(alphabet: string, values: seq<int>): (r: string)
    requires InAlphabet(alphabet, values)
    ensures |r| == |values| && forall i :: 0 <= i < |r| ==> r[i] == alphabet[values[i]]
  {
    seq(|values|, i requires 0 <= i < |values| => alphabet[values[i]])
  }

  /** The places of the characters of a text, if all of them are in the alphabet. */
  function Read(alphabet: string, text: string): (r: Option<seq<int>>)
    ensures r.Some? ==> |r.value| == |text| && InAlphabet(alphabet, r.value)
  {
    if text == [] then Some([])
    else
      var n := |text| - 1;
      match Read(alphabet, text[..n])
      case None => None
      case Some(front) =>
        match IndexOf(alphabet, text[n])
        case None => None
        case Some(last) => Some(front + [last])
  }

  lemma IndexOfPlace(alphabet: string, i: nat)
    requires Distinct(alphabet) && i < |alphabet|
    ensures IndexOf(alphabet, alphabet[i]) == Some(i)
  {
    assert alphabet[i] in alphabet;
  }

  lemma {:induction false} SpellThenRead(alphabet: string, values: seq<int>)
    requires Distinct(alphabet) && InAlphabet(alphabet, values)
    ensures Read(alphabet, Spell(alphabet, values)) == Some(values)
  {
    if values != [] {
      var n := |values| - 1;
      SpellThenRead(alphabet, values[..n]);
      assert Spell(alphabet, values)[..n] == Spell(alphabet, values[..n]);
      IndexOfPlace(alphabet, values[n]);
      assert values == values[..n] + [values[n]];
    }
  }

  lemma {:induction false} ReadThenSpell(alphabet: string, text: string)
    requires Read(alphabet, text).Some?
    ensures Spell(alphabet, Read(alphabet, text).value) == text
  {
    if text != [] {
      var n := |text| - 1;
      ReadThenSpell(alphabet, text[..n]);
      var values := Read(alphabet, text).value;
      assert values[..n] == Read(alphabet, text[..n]).value;
      assert text == text[..n] + [text[n]];
      assert Spell(alphabet, values)[..n] == Spell(alphabet, values[..n]);
    }
  }

  /** A text can be read exactly when every character is in the alphabet. */
  lemma {:induction false} ReadsExactly(alphabet: string, text: string)
    ensures Read(alphabet, text).Some? <==> forall i :: 0 <= i < |text| ==> text[i] in alphabet
  {
    if text != [] {
      var n := |text| - 1;
      ReadsExactly(alphabet, text[..n]);
      assert forall i :: 0 <= i < n ==> text[..n][i] == text[i];
    }
  }

  lemma HexIsDistinct()
    ensures Distinct(HEX)
  {
  }
}
