/**
 The boolean path of src/utilities.cpp (isBool) and include/cast.h (lexical_cast<bool>): the first reads a lower-cased
 text by name, the second the text itself as a number.
 */
module Booleans {
  import opened Integers

  function ToLower(c: char): char {
    if 'A' <= c <= 'Z' then (c as int + 32) as char else c
  }

  function Lowered(s: string): string {
    seq(|s|, i requires 0 <= i < |s| => ToLower(s[i]))
  }

  /**
   isBool: after spaces, the whole lower-cased text is a name of a boolean, and the stream has met its end. Whether
   it has, once a name is complete, is up to the C++ library and given by endMet.
   */
  predicate IsBool(s: string, endMet: bool) {
    var text := SkipSpaces(Lowered(s));
    endMet && (text == "true" || text == "false")
  }

  /**
   lexical_cast<bool>: a stream extraction without boolalpha, which reads a decimal long. Where there are no
   digits to read, zero is stored, which is false (section [facet.num.get.virtuals] of ISO C++).
   */
  predicate ReadBool(s: string) {
    Value(NumeralPrefix(Unsigned(SkipSpaces(s)), 10), 10) != 0
  }

  lemma {:induction false} SpacesLowered(s: string)
    ensures SkipSpaces(Lowered(s)) == Lowered(SkipSpaces(s))
  {
    if s == [] {
    } else {
      assert Lowered(s)[1..] == Lowered(s[1..]);
      SpacesLowered(s[1..]);
    }
  }

  /** No text that isBool accepts is read as true: the names have no digits. */
  lemma {:induction false} AcceptedBoolIsFalse(s: string, endMet: bool)
    requires IsBool(s, endMet)
    ensures !ReadBool(s)
  {
    SpacesLowered(s);
    var text := SkipSpaces(s);
    assert |Lowered(text)| == |text|;
    assert Lowered(text)[0] == 't' || Lowered(text)[0] == 'f';
    assert ToLower(text[0]) == 't' || ToLower(text[0]) == 'f';
    assert !IsDigit(text[0], 10);
    assert NumeralPrefix(text, 10) == [];
  }

  /** The texts of the JSON booleans are names. */
  lemma {:induction false} PrintedBools(endMet: bool)
    ensures IsBool("true", endMet) == endMet == IsBool("false", endMet)
  {
    assert Lowered("true") == "true" && Lowered("false") == "false";
  }
}
