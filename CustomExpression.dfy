/** The custom template function of arm-custom-expression.cs: `reverse`, which
    reverses a string through an in-place reversal of its character array, and the
    evaluator scope that finds it by name, ignoring case. */
module CustomExpression {
  import opened Wrappers
  import opened Sequences

  /** A .NET `char`: one UTF-16 code unit. A .NET string is a sequence of them, so a
      character above U+FFFF takes two (a surrogate pair). */
  newtype CodeUnit = x: int | 0 <= x < 0x1_0000

  /** The code units of one character: itself below U+10000, otherwise its high
      surrogate followed by its low surrogate. */
  function Units(c: char): (r: seq<CodeUnit>)
    ensures |r| == (if c as int < 0x1_0000 then 1 else 2)
  {
    if c as int < 0x1_0000 then [c as int as CodeUnit]
    else
      var v := c as int - 0x1_0000;
      [(0xD800 + v / 0x400) as CodeUnit, (0xDC00 + v % 0x400) as CodeUnit]
  }

  /** The UTF-16 form of a string: what `ToCharArray` sees. */
  function Utf16(s: string): seq<CodeUnit>
  {
    if s == [] then [] else Units(s[0]) + Utf16(s[1..])
  }

  /** The characters that take a single code unit. */
  predicate Basic(s: string)
  {
    s == [] || (s[0] as int < 0x1_0000 && Basic(s[1..]))
  }

  lemma {:induction false} BasicAt(s: string)
    ensures Basic(s) <==> forall k :: 0 <= k < |s| ==> s[k] as int < 0x1_0000
  {
    if s != [] {
      BasicAt(s[1..]);
      assert forall k :: 1 <= k < |s| ==> s[k] == s[1..][k - 1];
    }
  }

  /** Array.Reverse: swaps the two ends and moves inwards. */
  method ReverseInPlace(a: array<CodeUnit>)
    modifies a
    ensures a[..] == Reversed(old(a[..]))
  {
    var n := a.Length;
    var i := 0;
    while i < n / 2
      invariant 0 <= i <= n / 2
      invariant forall k :: 0 <= k < i ==> a[k] == old(a[n - 1 - k]) && a[n - 1 - k] == old(a[k])
      invariant forall k :: i <= k < n - i ==> a[k] == old(a[k])
    {
      a[i], a[n - 1 - i] := a[n - 1 - i], a[i];
      i := i + 1;
    }
  }

  /** ReverseFunction.Evaluate: the argument's code units copied into a fresh array,
      reversed there, and read back as a string. */
  method Evaluate(functionName: string, arg: seq<CodeUnit>) returns (r: seq<CodeUnit>)
    ensures r == Reversed(arg)
    ensures |r| == |arg|
    ensures forall k :: 0 <= k < |arg| ==> r[k] == arg[|arg| - 1 - k]
  {
    var charArray := new CodeUnit[|arg|](k requires 0 <= k < |arg| => arg[k]);
    assert charArray[..] == arg;
    ReverseInPlace(charArray);
    r := charArray[..];
  }

  /** A string of single-unit characters is its own UTF-16 form, unit by unit. */
  lemma {:induction false} Utf16Basic(s: string)
    requires Basic(s)
    ensures |Utf16(s)| == |s|
    ensures forall k :: 0 <= k < |s| ==> Utf16(s)[k] as int == s[k] as int
  {
    if s != [] {
      Utf16Basic(s[1..]);
      assert Utf16(s) == [s[0] as int as CodeUnit] + Utf16(s[1..]);
    }
  }

  /** On text with no character above U+FFFF, reversing the code units is reversing
      the characters. */
  lemma ReverseBasic(s: string, t: string)
    requires Basic(s) && t == Reversed(s)
    ensures Reversed(Utf16(s)) == Utf16(t)
  {
    Utf16Basic(s);
    BasicAt(s);
    BasicAt(Reversed(s));
    Utf16Basic(Reversed(s));
    assert forall k :: 0 <= k < |s| ==> Utf16(Reversed(s))[k] == Utf16(s)[|s| - 1 - k];
  }

  /** A character above U+FFFF is split: its surrogate pair comes out swapped, so the
      result is not the UTF-16 form of any string reversed. "a" followed by U+1F600
      gives the low surrogate, the high surrogate, then "a". */
  lemma SurrogatePairSplit()
    ensures Utf16("a\U{1F600}") == [0x61, 0xD83D, 0xDE00]
    ensures Reversed(Utf16("a\U{1F600}")) == [0xDE00, 0xD83D, 0x61]
    ensures Reversed(Utf16("a\U{1F600}")) != Utf16(Reversed("a\U{1F600}"))
  {
    var s := "a\U{1F600}";
    assert s[1..][1..] == [];
    assert Utf16(s) == [0x61, 0xD83D, 0xDE00];
    ReversedFromIndices(Utf16(s), [0xDE00, 0xD83D, 0x61]);
    ReversedFromIndices(s, "\U{1F600}a");
    assert "\U{1F600}a"[1..][1..] == [];
    assert Utf16("\U{1F600}a") == [0xD83D, 0xDE00, 0x61];
  }

  /** `reverse` of the sample expression's argument once concat has been evaluated.
      Every character of it takes one code unit, so by ReverseBasic the code units
      Evaluate returns are those of "!dlroW olleH". */
  lemma HelloWorld()
    ensures Basic("Hello World!")
    ensures Reversed("Hello World!") == "!dlroW olleH"
  {
    ReversedFromIndices("Hello World!", "!dlroW olleH");
  }

  /** The functions the scope contributes; ReverseFunction is the only one. */
  datatype ExpressionFunction = ReverseFunction

  function Name(f: ExpressionFunction): string
  {
    match f
    case ReverseFunction => "reverse"
  }

  const AdditionalFunctions: seq<ExpressionFunction> := [ReverseFunction]

  /** The upper-case mapping of ordinal case-insensitive comparison, for ASCII letters. */
  function ToUpper(c: char): char
  {
    if 'a' <= c <= 'z' then (c as int - 32) as char else c
  }

  /** Ordinal case-insensitive equality: same length, and equal characters once both
      are mapped to upper case. */
  predicate EqualsIgnoreCase(a: string, b: string)
  {
    |a| == |b| && forall k :: 0 <= k < |a| ==> ToUpper(a[k]) == ToUpper(b[k])
  }

  /** TryGetValue on the dictionary built from `functions`, keyed by name and compared
      ignoring case. */
  function Lookup(functions: seq<ExpressionFunction>, name: string): (r: Option<ExpressionFunction>)
    ensures r.Some? <==> exists f :: f in functions && EqualsIgnoreCase(Name(f), name)
    ensures r.Some? ==> r.value in functions && EqualsIgnoreCase(Name(r.value), name)
  {
    if functions == [] then None
    else if EqualsIgnoreCase(Name(functions[0]), name) then Some(functions[0])
    else Lookup(functions[1..], name)
  }

  /** TryGetFunctionEvaluator: the evaluator of the function the name designates, or
      none. */
  function TryGetFunctionEvaluator(functionName: string): (r: Option<ExpressionFunction>)
    ensures r.Some? <==> EqualsIgnoreCase("reverse", functionName)
    ensures r.Some? ==> r.value == ReverseFunction
  {
    Lookup(AdditionalFunctions, functionName)
  }

  /** Case does not matter to the lookup, anything else does. */
  lemma LookupCases()
    ensures TryGetFunctionEvaluator("reverse") == Some(ReverseFunction)
    ensures TryGetFunctionEvaluator("REVERSE") == Some(ReverseFunction)
    ensures TryGetFunctionEvaluator("Reverse") == Some(ReverseFunction)
    ensures TryGetFunctionEvaluator("revers") == None
    ensures TryGetFunctionEvaluator("reverse ") == None
    ensures TryGetFunctionEvaluator("concat") == None
  {
    assert EqualsIgnoreCase("reverse", "REVERSE");
    assert EqualsIgnoreCase("reverse", "Reverse");
    assert !EqualsIgnoreCase("reverse", "concat") by {
      assert ToUpper("reverse"[0]) != ToUpper("concat"[0]);
    }
  }

  /** Ignoring case is symmetric and transitive, so every spelling of a name that finds
      a function finds the same one. */
  lemma IgnoreCaseEquivalence(a: string, b: string, c: string)
    ensures EqualsIgnoreCase(a, a)
    ensures EqualsIgnoreCase(a, b) ==> EqualsIgnoreCase(b, a)
    ensures EqualsIgnoreCase(a, b) && EqualsIgnoreCase(b, c) ==> EqualsIgnoreCase(a, c)
  {
  }
}
