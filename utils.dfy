/** libpepeye/utils.py: the type guard used before accepting a statistics
    object, and the classification of an environment variable as a boolean. */
module Utils {
  import opened PyBase
  import opened PyStr

  /** A Python object as isinstance sees it: None, or an instance whose class
      and base classes (its method resolution order) are `mro`, with the
      attribute data `attrs` its users read. */
  datatype PyObject<T> = PyNone | Instance(mro: seq<string>, attrs: T)

  /** isinstance(obj, cls); None is an instance of NoneType and of object. */
  predicate IsInstance<T>(obj: PyObject<T>, cls: string) {
    match obj
    case PyNone => cls == "NoneType" || cls == "object"
    case Instance(mro, _) => cls in mro
  }

  /** check_class: returns when `obj` is an instance of `targetClass`, or is None
      while `allowNone` holds; raises TypeError otherwise. */
  function CheckClass<T>(obj: PyObject<T>, targetClass: string, allowNone: bool): (r: Outcome<()>)
    ensures r.Ok? <==> IsInstance(obj, targetClass) || (allowNone && obj.PyNone?)
    ensures r.Raise? ==> r.exc == TypeError
  {
    if !IsInstance(obj, targetClass) && !(allowNone && obj == PyNone) then
      Raise(TypeError)
    else
      Ok(())
  }

  /** The values environment_var_to_bool is modelled on: an int (bool included)
      or a string. */
  datatype EnvValue = IntValue(i: int) | StrValue(s: string)

  /** environment_var_to_bool: an int, or a string that int() accepts, is true
      when non-zero; any other string is false exactly when its lower-cased,
      stripped form is a substring of "false". */
  function EnvironmentVarToBool(v: EnvValue): bool {
    match v
    case IntValue(i) => i != 0
    case StrValue(s) =>
      match ParseInt(s)
      case Some(n) => n != 0
      case None => !Contains("false", Strip(Lower(s)))
  }

  /** Every substring of "false", the empty string included. */
  const FALSE_FRAGMENTS: set<string> := {
    "", "f", "a", "l", "s", "e", "fa", "al", "ls", "se",
    "fal", "als", "lse", "fals", "alse", "false"
  }

  /** Each slice of "false" is one of the fragments. */
  lemma SliceOfFalse(i: int, n: int)
    requires 0 <= i && 0 <= n && i + n <= 5
    ensures "false"[i..i + n] in FALSE_FRAGMENTS
  {
    var w := "false";
    if i == 0 {
      if n == 0 { assert w[0..0] == ""; } else if n == 1 { assert w[0..1] == "f"; } else if n == 2 { assert w[0..2] == "fa"; } else if n == 3 { assert w[0..3] == "fal"; } else if n == 4 { assert w[0..4] == "fals"; } else if n == 5 { assert w[0..5] == "false"; }
    } else if i == 1 {
      if n == 0 { assert w[1..1] == ""; } else if n == 1 { assert w[1..2] == "a"; } else if n == 2 { assert w[1..3] == "al"; } else if n == 3 { assert w[1..4] == "als"; } else if n == 4 { assert w[1..5] == "alse"; }
    } else if i == 2 {
      if n == 0 { assert w[2..2] == ""; } else if n == 1 { assert w[2..3] == "l"; } else if n == 2 { assert w[2..4] == "ls"; } else if n == 3 { assert w[2..5] == "lse"; }
    } else if i == 3 {
      if n == 0 { assert w[3..3] == ""; } else if n == 1 { assert w[3..4] == "s"; } else if n == 2 { assert w[3..5] == "se"; }
    } else if i == 4 {
      if n == 0 { assert w[4..4] == ""; } else if n == 1 { assert w[4..5] == "e"; }
    } else if i == 5 {
      if n == 0 { assert w[5..5] == ""; }
    }
  }

  /** Each fragment occurs in "false". */
  lemma FragmentInFalse(t: string)
    requires t in FALSE_FRAGMENTS
    ensures exists i :: OccursAt("false", t, i)
  {
    var w := "false";
    if t == "" {
      assert w[0..0] == t;
      assert OccursAt(w, t, 0);
    } else if t == "f" {
      assert w[0..1] == t;
      assert OccursAt(w, t, 0);
    } else if t == "a" {
      assert w[1..2] == t;
      assert OccursAt(w, t, 1);
    } else if t == "l" {
      assert w[2..3] == t;
      assert OccursAt(w, t, 2);
    } else if t == "s" {
      assert w[3..4] == t;
      assert OccursAt(w, t, 3);
    } else if t == "e" {
      assert w[4..5] == t;
      assert OccursAt(w, t, 4);
    } else if t == "fa" {
      assert w[0..2] == t;
      assert OccursAt(w, t, 0);
    } else if t == "al" {
      assert w[1..3] == t;
      assert OccursAt(w, t, 1);
    } else if t == "ls" {
      assert w[2..4] == t;
      assert OccursAt(w, t, 2);
    } else if t == "se" {
      assert w[3..5] == t;
      assert OccursAt(w, t, 3);
    } else if t == "fal" {
      assert w[0..3] == t;
      assert OccursAt(w, t, 0);
    } else if t == "als" {
      assert w[1..4] == t;
      assert OccursAt(w, t, 1);
    } else if t == "lse" {
      assert w[2..5] == t;
      assert OccursAt(w, t, 2);
    } else if t == "fals" {
      assert w[0..4] == t;
      assert OccursAt(w, t, 0);
    } else if t == "alse" {
      assert w[1..5] == t;
      assert OccursAt(w, t, 1);
    } else {
      assert t == "false" && w[0..5] == t;
      assert OccursAt(w, t, 0);
    }
  }

  lemma ContainedInFalseIsFragment(t: string)
    requires Contains("false", t)
    ensures t in FALSE_FRAGMENTS
  {
    ContainsIff("false", t);
    var i :| OccursAt("false", t, i);
    SliceOfFalse(i, |t|);
  }

  lemma FragmentContainedInFalse(t: string)
    requires t in FALSE_FRAGMENTS
    ensures Contains("false", t)
  {
    FragmentInFalse(t);
    ContainsIff("false", t);
  }

  /** The substring test against "false" accepts exactly the sixteen fragments. */
  lemma ContainsFalseIff(t: string)
    ensures Contains("false", t) <==> t in FALSE_FRAGMENTS
  {
    if Contains("false", t) {
      ContainedInFalseIsFragment(t);
    }
    if t in FALSE_FRAGMENTS {
      FragmentContainedInFalse(t);
    }
  }

  /** For a string int() rejects, the result is false exactly for the
      fragments of "false", after lower-casing and stripping. */
  lemma EnvStringFalse(s: string)
    requires ParseInt(s).None?
    ensures !EnvironmentVarToBool(StrValue(s)) <==> Strip(Lower(s)) in FALSE_FRAGMENTS
  {
    ContainsFalseIff(Strip(Lower(s)));
  }

  /** The string of an integer classifies like the integer itself. */
  lemma EnvIntegerString(n: int)
    ensures EnvironmentVarToBool(StrValue(IntToStr(n))) == EnvironmentVarToBool(IntValue(n))
  {
    IntToStrRoundTrip(n);
  }

  lemma EnvZero()
    ensures !EnvironmentVarToBool(StrValue("0"))
  {
    EnvIntegerString(0);
    assert IntToStr(0) == "0";
  }

  lemma EnvDoubleZero()
    ensures !EnvironmentVarToBool(StrValue("00"))
  {
    var s := "00";
    TrimUnchanged(IntSpaces, s);
    assert ValidDigits(s) by {
      assert DigitOrJoin(s, 0) && DigitOrJoin(s, 1);
    }
    assert RemoveUnderscores(s) == s;
    assert DigitsValue(s) == 0 by {
      assert s[..1] == "0";
    }
  }

  lemma EnvSeven()
    ensures EnvironmentVarToBool(StrValue("7"))
  {
    EnvIntegerString(7);
    assert IntToStr(7) == "7";
  }

  lemma EnvMinusThree()
    ensures EnvironmentVarToBool(StrValue("-3"))
  {
    EnvIntegerString(-3);
    assert IntToStr(-3) == "-3";
  }

  /** Integer strings classify by value: "0" and "00" are false, "7" and "-3"
      true. */
  lemma EnvIntegerExamples()
    ensures !EnvironmentVarToBool(StrValue("0")) && !EnvironmentVarToBool(StrValue("00"))
    ensures EnvironmentVarToBool(StrValue("7")) && EnvironmentVarToBool(StrValue("-3"))
  {
    EnvZero();
    EnvDoubleZero();
    EnvSeven();
    EnvMinusThree();
  }

  /** A string holding a letter is rejected by int(), so it classifies by its
      lower-cased, stripped form alone. */
  lemma EnvWord(s: string, k: int)
    requires 0 <= k < |s| && 'a' <= LowerChar(s[k]) <= 'z'
    ensures EnvironmentVarToBool(StrValue(s)) <==> !Contains("false", Strip(Lower(s)))
  {
    ParseIntChars(s, k);
  }

  /** A lower-case word without white space, as environment_var_to_bool sees it. */
  lemma EnvLowerWord(w: string)
    requires |w| > 0 && forall i :: 0 <= i < |w| ==> 'a' <= w[i] <= 'z'
    ensures EnvironmentVarToBool(StrValue(w)) <==> !Contains("false", w)
  {
    assert Lower(w) == w;
    TrimUnchanged(StrSpaces, w);
    EnvWord(w, 0);
  }

  /** A string holding a character that "false" lacks is not one of its
      substrings. */
  lemma NotInFalse(t: string, k: int)
    requires 0 <= k < |t| && t[k] !in "false"
    ensures !Contains("false", t)
  {
    ContainsIff("false", t);
    if exists i :: OccursAt("false", t, i) {
      var i :| OccursAt("false", t, i);
    }
  }

  lemma EnvUpperFalse()
    ensures !EnvironmentVarToBool(StrValue("FALSE"))
  {
    assert Lower("FALSE") == "false";
    TrimUnchanged(StrSpaces, "false");
    EnvWord("FALSE", 0);
  }

  lemma PaddedLower()
    ensures Lower(" false ") == " false "
  {
    var s := " false ";
    forall i | 0 <= i < |s|
      ensures Lower(s)[i] == s[i]
    {
      assert !IsUpper(s[i]);
    }
  }

  lemma PaddedStrip()
    ensures Strip(" false ") == "false"
  {
    var s := " false ";
    assert SkipSpace(StrSpaces, s, 1) == 1;
    assert TrimStart(StrSpaces, s) == 1;
    assert SkipSpaceBack(StrSpaces, s, 1, 6) == 6;
    assert TrimEnd(StrSpaces, s) == 6;
    assert s[1..6] == "false";
  }

  lemma EnvPaddedFalse()
    ensures !EnvironmentVarToBool(StrValue(" false "))
  {
    PaddedLower();
    PaddedStrip();
    EnvWord(" false ", 1);
  }

  /** int() skips only C's white space, so an information separator before
      the digits makes it raise, while str.strip() removes it: "\x1c0" is
      classified as the word "0", which "false" does not contain. */
  lemma EnvSeparatorZero()
    ensures EnvironmentVarToBool(StrValue("\U{1C}0"))
  {
    var s := "\U{1C}0";
    ParseIntChars(s, 0);
    assert Lower(s) == s by {
      assert !IsUpper(s[0]) && !IsUpper(s[1]);
    }
    assert Strip(s) == "0" by {
      assert SkipSpace(StrSpaces, s, 1) == 1;
      assert TrimStart(StrSpaces, s) == 1;
      assert TrimEnd(StrSpaces, s) == 2;
    }
    NotInFalse("0", 0);
  }

  lemma EnvEmpty()
    ensures !EnvironmentVarToBool(StrValue(""))
  {
    assert Strip(Lower("")) == "";
    ContainsEmpty("false");
  }

  lemma EnvWordF()
    ensures !EnvironmentVarToBool(StrValue("f"))
  {
    var w := "f";
    assert forall i :: 0 <= i < |w| ==> 'a' <= w[i] <= 'z';
    EnvLowerWord(w);
    assert OccursAt("false", w, 0);
    ContainsAt("false", w, 0);
  }

  lemma EnvWordFal()
    ensures !EnvironmentVarToBool(StrValue("fal"))
  {
    var w := "fal";
    assert forall i :: 0 <= i < |w| ==> 'a' <= w[i] <= 'z';
    EnvLowerWord(w);
    assert OccursAt("false", w, 0);
    ContainsAt("false", w, 0);
  }

  lemma AlsInFalse()
    ensures Contains("false", "als")
  {
    assert "false"[1..4] == "als";
    ContainsAt("false", "als", 1);
  }

  lemma EnvWordAls()
    ensures !EnvironmentVarToBool(StrValue("als"))
  {
    var w := "als";
    assert forall i :: 0 <= i < |w| ==> 'a' <= w[i] <= 'z';
    EnvLowerWord(w);
    AlsInFalse();
  }

  lemma EnvWordNo()
    ensures EnvironmentVarToBool(StrValue("no"))
  {
    var w := "no";
    assert forall i :: 0 <= i < |w| ==> 'a' <= w[i] <= 'z';
    EnvLowerWord(w);
    NotInFalse(w, 0);
  }

  lemma EnvWordOff()
    ensures EnvironmentVarToBool(StrValue("off"))
  {
    var w := "off";
    assert forall i :: 0 <= i < |w| ==> 'a' <= w[i] <= 'z';
    EnvLowerWord(w);
    NotInFalse(w, 0);
  }

  lemma EnvWordTrue()
    ensures EnvironmentVarToBool(StrValue("true"))
  {
    var w := "true";
    assert forall i :: 0 <= i < |w| ==> 'a' <= w[i] <= 'z';
    EnvLowerWord(w);
    NotInFalse(w, 0);
  }

  /** "FALSE", " false " and the empty string are false, and so are fragments
      such as "f", "fal" and "als"; other words such as "no", "off" and "true"
      are true. */
  lemma EnvWordExamples()
    ensures !EnvironmentVarToBool(StrValue("FALSE")) && !EnvironmentVarToBool(StrValue(" false "))
    ensures !EnvironmentVarToBool(StrValue(""))
    ensures !EnvironmentVarToBool(StrValue("f")) && !EnvironmentVarToBool(StrValue("fal"))
    ensures !EnvironmentVarToBool(StrValue("als"))
    ensures EnvironmentVarToBool(StrValue("no")) && EnvironmentVarToBool(StrValue("off"))
    ensures EnvironmentVarToBool(StrValue("true"))
  {
    EnvUpperFalse();
    EnvPaddedFalse();
    EnvEmpty();
    EnvWordF();
    EnvWordFal();
    EnvWordAls();
    EnvWordNo();
    EnvWordOff();
    EnvWordTrue();
  }
}
