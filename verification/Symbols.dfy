/** Prompt symbols: finding bracketed tokens by a leftmost, non-greedy scan and
    lowering them to their protocol-specific surfaces. */
module Symbols {
  import opened Sequences

  const OPEN: char := '\U{27E6}'
  const CLOSE: char := '\U{27E7}'

  type Vocabulary = map<string, string>

  datatype Lowered = Text(text: string) | Unknown(name: string)

  /** The position of the first closing bracket, or the length if there is none. */
  function FirstClose(t: string): (k: nat)
    ensures k <= |t| && (k < |t| ==> t[k] == CLOSE)
    ensures forall i | 0 <= i < k :: t[i] != CLOSE
  {
    if t == "" || t[0] == CLOSE then 0 else 1 + FirstClose(t[1..])
  }

  /** A token starts here: an opening bracket with a closing one somewhere after it. */
  predicate AtToken(t: string) {
    t != "" && t[0] == OPEN && FirstClose(t) < |t|
  }

  function FindSymbols(t: string): seq<string> {
    if t == "" then []
    else if AtToken(t) then
      var k := FirstClose(t);
      [t[1..k]] + FindSymbols(t[k + 1..])
    else FindSymbols(t[1..])
  }

  function Substitute(t: string, v: Vocabulary): Lowered {
    if t == "" then Text("")
    else if AtToken(t) then
      var k := FirstClose(t);
      var name := t[1..k];
      if name !in v then Unknown(name)
      else
        match Substitute(t[k + 1..], v)
        case Unknown(n) => Unknown(n)
        case Text(rest) => Text(v[name] + rest)
    else
      match Substitute(t[1..], v)
      case Unknown(n) => Unknown(n)
      case Text(rest) => Text([t[0]] + rest)
  }

  function Lower(t: string, v: Vocabulary): Lowered {
    if t == "" || OPEN !in t then Text(t) else Substitute(t, v)
  }

  // ------------------------------------------------------------------
  // What the scan finds
  // ------------------------------------------------------------------

  /** No opening bracket has a closing bracket anywhere after it. */
  ghost predicate Tokenless(t: string) {
    forall i, j | 0 <= i < j < |t| :: !(t[i] == OPEN && t[j] == CLOSE)
  }

  /** The scan finds nothing exactly when there is nothing to find. */
  lemma {:induction false} FindsNothingIff(t: string)
    ensures FindSymbols(t) == [] <==> Tokenless(t)
  {
    if t == "" {
    } else {
      if AtToken(t) {
        assert t[0] == OPEN && t[FirstClose(t)] == CLOSE;
      } else {
        FindsNothingIff(t[1..]);
        forall i, j | 0 <= i < j < |t| && Tokenless(t[1..]) ensures !(t[i] == OPEN && t[j] == CLOSE) {
          if i > 0 {
            assert t[i] == t[1..][i - 1] && t[j] == t[1..][j - 1];
          }
        }
        if Tokenless(t) {
          forall i, j | 0 <= i < j < |t[1..]| ensures !(t[1..][i] == OPEN && t[1..][j] == CLOSE) {
            assert t[1..][i] == t[i + 1] && t[1..][j] == t[j + 1];
          }
        }
      }
    }
  }

  lemma {:induction false} NothingToSubstitute(t: string, v: Vocabulary)
    requires FindSymbols(t) == []
    ensures Substitute(t, v) == Text(t)
  {
    if t == "" {
    } else {
      NothingToSubstitute(t[1..], v);
    }
  }

  /** Text without symbols is returned unchanged. */
  lemma LowerUnchanged(t: string, v: Vocabulary)
    requires FindSymbols(t) == []
    ensures Lower(t, v) == Text(t)
  {
    NothingToSubstitute(t, v);
  }

  function Prepend(a: string, r: Lowered): Lowered {
    match r
    case Unknown(n) => Unknown(n)
    case Text(rest) => Text(a + rest)
  }

  function Token(name: string): string {
    [OPEN] + name + [CLOSE]
  }

  lemma TokenHere(name: string, after: string, v: Vocabulary)
    requires CLOSE !in name
    ensures FindSymbols(Token(name) + after) == [name] + FindSymbols(after)
    ensures Substitute(Token(name) + after, v) ==
            if name in v then Prepend(v[name], Substitute(after, v)) else Unknown(name)
  {
    var t, k := Token(name) + after, |name| + 1;
    assert t[k] == CLOSE;
    forall i | 0 <= i < k ensures t[i] != CLOSE {
      assert i > 0 ==> t[i] == name[i - 1] && name[i - 1] in name;
    }
    assert FirstClose(t) == k;
    assert t[1..k] == name && t[k + 1..] == after;
  }

  lemma {:induction false} SkipProse(before: string, t: string, v: Vocabulary)
    requires OPEN !in before
    ensures Substitute(before + t, v) == Prepend(before, Substitute(t, v))
    ensures FindSymbols(before + t) == FindSymbols(t)
  {
    if before == "" {
      assert before + t == t;
      assert Substitute(t, v).Text? ==> "" + Substitute(t, v).text == Substitute(t, v).text;
    } else {
      assert (before + t)[1..] == before[1..] + t;
      SkipProse(before[1..], t, v);
      SplitFirst(before);
      if Substitute(t, v).Text? {
        Assoc([before[0]], before[1..], Substitute(t, v).text);
      }
    }
  }

  /** Lowering replaces the leftmost token and goes on after it. */
  lemma LowerAtToken(before: string, name: string, after: string, v: Vocabulary)
    requires OPEN !in before && CLOSE !in name
    ensures FindSymbols(before + (Token(name) + after)) == [name] + FindSymbols(after)
    ensures Lower(before + (Token(name) + after), v) ==
            if name in v then Prepend(before, Prepend(v[name], Substitute(after, v))) else Unknown(name)
  {
    assert (before + (Token(name) + after))[|before|] == OPEN;
    TokenHere(name, after, v);
    SkipProse(before, Token(name) + after, v);
  }

  // ------------------------------------------------------------------
  // Errors
  // ------------------------------------------------------------------

  /** `names[i]` is the first name without a surface. */
  predicate FirstUnknown(names: seq<string>, v: Vocabulary, i: nat) {
    i < |names| && names[i] !in v && forall j | 0 <= j < i :: names[j] in v
  }

  lemma FirstUnknownBehind(name: string, names: seq<string>, v: Vocabulary, i: nat)
    requires name in v && FirstUnknown(names, v, i)
    ensures FirstUnknown([name] + names, v, i + 1) && ([name] + names)[i + 1] == names[i]
  {
  }

  lemma {:induction false} SubstituteFailsIff(t: string, v: Vocabulary)
    ensures Substitute(t, v).Text? <==> forall n | n in FindSymbols(t) :: n in v
    ensures Substitute(t, v).Unknown? ==>
              exists i: nat :: FirstUnknown(FindSymbols(t), v, i) && Substitute(t, v).name == FindSymbols(t)[i]
  {
    if t == "" {
    } else if AtToken(t) {
      var k := FirstClose(t);
      var name, rest := t[1..k], FindSymbols(t[k + 1..]);
      SubstituteFailsIff(t[k + 1..], v);
      assert FindSymbols(t) == [name] + rest;
      if name !in v {
        assert FirstUnknown(FindSymbols(t), v, 0);
      } else if Substitute(t[k + 1..], v).Unknown? {
        var i: nat :| FirstUnknown(rest, v, i) && Substitute(t[k + 1..], v).name == rest[i];
        FirstUnknownBehind(name, rest, v, i);
      }
    } else {
      SubstituteFailsIff(t[1..], v);
    }
  }

  /** Lowering fails exactly when some symbol of the text has no surface, and it
      then names the leftmost such symbol. */
  lemma LowerFailsIff(t: string, v: Vocabulary)
    ensures Lower(t, v).Text? <==> forall n | n in FindSymbols(t) :: n in v
    ensures Lower(t, v).Unknown? ==>
              exists i: nat :: FirstUnknown(FindSymbols(t), v, i) && Lower(t, v).name == FindSymbols(t)[i]
  {
    SubstituteFailsIff(t, v);
    if OPEN !in t {
      FindsNothingIff(t);
    }
  }

  // ------------------------------------------------------------------
  // No symbol survives
  // ------------------------------------------------------------------

  /** No surface that a token can select contains an opening bracket. A key with
      a closing bracket in it is never selected. */
  ghost predicate SafeVocabulary(v: Vocabulary) {
    forall k | k in v && CLOSE !in k :: OPEN !in v[k]
  }

  lemma TokenlessPrepend(a: string, b: string)
    requires Tokenless(b) && OPEN !in a
    ensures Tokenless(a + b)
  {
    forall i, j | 0 <= i < j < |a + b| ensures !((a + b)[i] == OPEN && (a + b)[j] == CLOSE) {
      if i < |a| {
        assert (a + b)[i] == a[i] && a[i] in a;
      } else {
        assert (a + b)[i] == b[i - |a|] && (a + b)[j] == b[j - |a|];
      }
    }
  }

  lemma {:induction false} SubstituteLeavesNone(t: string, v: Vocabulary)
    requires SafeVocabulary(v) && Substitute(t, v).Text?
    ensures Tokenless(Substitute(t, v).text)
  {
    if t == "" {
    } else {
      if AtToken(t) {
        var k := FirstClose(t);
        var name := t[1..k];
        assert CLOSE !in name;
        SubstituteLeavesNone(t[k + 1..], v);
        TokenlessPrepend(v[name], Substitute(t[k + 1..], v).text);
      } else if t[0] == OPEN {
        assert CLOSE !in t;
        FindsNothingIff(t);
        NothingToSubstitute(t, v);
      } else {
        SubstituteLeavesNone(t[1..], v);
        TokenlessPrepend([t[0]], Substitute(t[1..], v).text);
      }
    }
  }

  /** With a safe vocabulary a lowered text holds no symbol, and lowering it
      again, with any vocabulary, changes nothing. */
  lemma LoweredIsFinal(t: string, v: Vocabulary, again: Vocabulary)
    requires SafeVocabulary(v) && Lower(t, v).Text?
    ensures FindSymbols(Lower(t, v).text) == []
    ensures Lower(Lower(t, v).text, again) == Lower(t, v)
  {
    var u := Lower(t, v).text;
    if OPEN !in t {
      FindsNothingIff(t);
    } else {
      SubstituteLeavesNone(t, v);
      FindsNothingIff(u);
    }
    LowerUnchanged(u, again);
  }

  /** Safety is exactly what it takes: any unsafe vocabulary lowers some text to
      one that still holds a symbol. */
  lemma SafeIff(v: Vocabulary)
    ensures SafeVocabulary(v) <==> forall t | Lower(t, v).Text? :: FindSymbols(Lower(t, v).text) == []
  {
    if SafeVocabulary(v) {
      forall t | Lower(t, v).Text? ensures FindSymbols(Lower(t, v).text) == [] {
        LoweredIsFinal(t, v, v);
      }
    } else {
      var k :| k in v && CLOSE !in k && OPEN in v[k];
      var t := UnsafeExample(v, k);
      assert Lower(t, v).Text? && FindSymbols(Lower(t, v).text) != [];
    }
  }

  lemma UnsafeExample(v: Vocabulary, k: string) returns (t: string)
    requires k in v && CLOSE !in k && OPEN in v[k]
    ensures Lower(t, v).Text? && FindSymbols(Lower(t, v).text) != []
  {
    t := "" + (Token(k) + [CLOSE]);
    LowerAtToken("", k, [CLOSE], v);
    assert !AtToken([CLOSE]) && [CLOSE][1..] == "";
    assert Substitute([CLOSE], v) == Text([CLOSE]);
    var u := Lower(t, v).text;
    assert u == v[k] + [CLOSE];
    var i :| 0 <= i < |v[k]| && v[k][i] == OPEN;
    assert u[i] == OPEN && u[|v[k]|] == CLOSE;
    FindsNothingIff(u);
  }
}
