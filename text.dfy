/** String functions the routes use: the Turkish-letter transliteration of
    the report route, the letter stripping of the sales report file name,
    and the upper-casing behind role normalisation. */
module Text {

  /** The twelve letters ğĞüÜşŞıİöÖçÇ. */
  predicate IsTurkishLetter(c: char)
  {
    c in "ğĞüÜşŞıİöÖçÇ"
  }

  /** The ASCII letter each Turkish letter is written as. */
  function AsciiFor(c: char): (a: char)
    requires IsTurkishLetter(c)
    ensures 'A' <= a <= 'Z' || 'a' <= a <= 'z'
  {
    match c
    case 'ğ' => 'g' case 'Ğ' => 'G'
    case 'ü' => 'u' case 'Ü' => 'U'
    case 'ş' => 's' case 'Ş' => 'S'
    case 'ı' => 'i' case 'İ' => 'I'
    case 'ö' => 'o' case 'Ö' => 'O'
    case 'ç' => 'c' case _ => 'C'
  }

  function Transliterate(c: char): (a: char)
    ensures !IsTurkishLetter(a)
    ensures !IsTurkishLetter(c) ==> a == c
  {
    if IsTurkishLetter(c) then AsciiFor(c) else c
  }

  /** convertTurkishChars: every Turkish letter replaced by its ASCII
      counterpart, every other character kept, so the length is kept. */
  function ConvertTurkishChars(text: string): (r: string)
    ensures |r| == |text|
    ensures forall i :: 0 <= i < |text| ==> r[i] == Transliterate(text[i])
  {
    if text == [] then [] else [Transliterate(text[0])] + ConvertTurkishChars(text[1..])
  }

  /** Converting twice is converting once. */
  lemma {:induction false} ConvertTurkishCharsIdempotent(text: string)
    ensures ConvertTurkishChars(ConvertTurkishChars(text)) == ConvertTurkishChars(text)
  {
    var once := ConvertTurkishChars(text);
    var twice := ConvertTurkishChars(once);
    assert |twice| == |once|;
    forall i | 0 <= i < |once| ensures twice[i] == once[i] {
      assert !IsTurkishLetter(once[i]);
    }
  }

  /** Conversion distributes over concatenation, so it works letter by letter. */
  lemma {:induction false} ConvertTurkishCharsConcat(a: string, b: string)
    ensures ConvertTurkishChars(a + b) == ConvertTurkishChars(a) + ConvertTurkishChars(b)
  {
    var l, r := ConvertTurkishChars(a + b), ConvertTurkishChars(a) + ConvertTurkishChars(b);
    assert |l| == |r|;
    forall i | 0 <= i < |l| ensures l[i] == r[i] {
      if i < |a| { assert (a + b)[i] == a[i]; } else { assert (a + b)[i] == b[i - |a|]; }
    }
  }

  /** `replace(/[ğĞüÜşŞıİöÖçÇ]/g, '')`: the Turkish letters dropped, the
      other characters kept in order. */
  function StripTurkishLetters(s: string): (r: string)
    ensures |r| <= |s|
    ensures forall i :: 0 <= i < |r| ==> !IsTurkishLetter(r[i])
    ensures forall c :: c in r <==> c in s && !IsTurkishLetter(c)
  {
    if s == [] then []
    else if IsTurkishLetter(s[0]) then StripTurkishLetters(s[1..])
    else [s[0]] + StripTurkishLetters(s[1..])
  }

  /** Stripping distributes over concatenation (it keeps the order of what it keeps). */
  lemma {:induction false} StripTurkishLettersConcat(a: string, b: string)
    ensures StripTurkishLetters(a + b) == StripTurkishLetters(a) + StripTurkishLetters(b)
  {
    if a != [] {
      assert (a + b)[0] == a[0] && (a + b)[1..] == a[1..] + b;
      StripTurkishLettersConcat(a[1..], b);
    } else {
      assert a + b == b;
    }
  }

  /** A string with no Turkish letter is stripped to itself; conversion
      first leaves nothing to strip. */
  lemma {:induction false} StripTurkishLettersKeepsAscii(s: string)
    requires forall i :: 0 <= i < |s| ==> !IsTurkishLetter(s[i])
    ensures StripTurkishLetters(s) == s
  {
    if s != [] {
      StripTurkishLettersKeepsAscii(s[1..]);
    }
  }

  lemma StripAfterConvert(s: string)
    ensures StripTurkishLetters(ConvertTurkishChars(s)) == ConvertTurkishChars(s)
  {
    StripTurkishLettersKeepsAscii(ConvertTurkishChars(s));
  }

  /** A character that String.prototype.toUpperCase changes, among ASCII,
      Latin-1 and Latin Extended-A (U+0000 to U+017F): the small letters
      that have a capital, and ß, ŉ and ſ, which become other letters. */
  predicate IsLower(c: char)
  {
    || 'a' <= c <= 'z'
    || c == '\U{00B5}'
    || ('\U{00DF}' <= c <= '\U{00FF}' && c != '\U{00F7}')
    || ('\U{0100}' <= c <= '\U{0137}' && c as int % 2 == 1)
    || ('\U{0139}' <= c <= '\U{0148}' && c as int % 2 == 0)
    || c == '\U{0149}'
    || ('\U{014A}' <= c <= '\U{0177}' && c as int % 2 == 1)
    || ('\U{0179}' <= c <= '\U{017E}' && c as int % 2 == 0)
    || c == '\U{017F}'
  }

  /** toUpperCase of one character: a capital for each small letter of the
      range (µ to the Greek capital mu, ÿ to Ÿ, the dotless ı to I, ſ to S),
      two letters for ß ("SS") and ŉ ("ʼN"); every other character is kept. */
  function UpperOf(c: char): (u: string)
    ensures !IsLower(c) <==> u == [c]
    ensures |u| == (if c == '\U{00DF}' || c == '\U{0149}' then 2 else 1)
    ensures forall i :: 0 <= i < |u| ==> !IsLower(u[i])
    ensures 'a' <= c <= 'z' ==> u == [(c as int - 32) as char]
  {
    if 'a' <= c <= 'z' then [(c as int - 32) as char]
    else if c == '\U{00B5}' then ['\U{039C}']
    else if c == '\U{00DF}' then "SS"
    else if c == '\U{00FF}' then ['\U{0178}']
    else if '\U{00E0}' <= c <= '\U{00FE}' && c != '\U{00F7}' then [(c as int - 32) as char]
    else if c == '\U{0131}' then "I"
    else if c == '\U{0149}' then ['\U{02BC}', 'N']
    else if c == '\U{017F}' then "S"
    else if IsLower(c) then [(c as int - 1) as char]
    else [c]
  }

  /** String.prototype.toUpperCase over ASCII, Latin-1 and Latin
      Extended-A: no small letter of that range is left, the string only
      grows where ß or ŉ become two letters, and a string with no small
      letter is returned as it is. */
  function ToUpper(s: string): (r: string)
    ensures forall i :: 0 <= i < |r| ==> !IsLower(r[i])
    ensures |s| <= |r| <= 2 * |s|
    ensures (forall i :: 0 <= i < |s| ==> !IsLower(s[i])) ==> r == s
  {
    if s == [] then []
    else
      var r := UpperOf(s[0]) + ToUpper(s[1..]);
      assert forall i :: 0 <= i < |r| ==> !IsLower(r[i]) by {
        forall i | 0 <= i < |r| ensures !IsLower(r[i]) {
          if i >= |UpperOf(s[0])| { assert r[i] == ToUpper(s[1..])[i - |UpperOf(s[0])|]; }
        }
      }
      r
  }

  /** Upper-casing twice is upper-casing once. */
  lemma ToUpperIdempotent(s: string)
    ensures ToUpper(ToUpper(s)) == ToUpper(s)
  {
  }

  /** Upper-casing works character by character: it distributes over concatenation. */
  lemma {:induction false} ToUpperConcat(a: string, b: string)
    ensures ToUpper(a + b) == ToUpper(a) + ToUpper(b)
  {
    if a == [] {
      assert a + b == b;
    } else {
      assert (a + b)[0] == a[0] && (a + b)[1..] == a[1..] + b;
      ToUpperConcat(a[1..], b);
    }
  }

  /** Without ß or ŉ, upper-casing keeps the length and maps each position
      to the capital of its character. */
  lemma {:induction false} ToUpperPointwise(s: string)
    requires forall i :: 0 <= i < |s| ==> s[i] != '\U{00DF}' && s[i] != '\U{0149}'
    ensures |ToUpper(s)| == |s|
    ensures forall i :: 0 <= i < |s| ==> ToUpper(s)[i] == UpperOf(s[i])[0]
  {
    if s != [] {
      ToUpperPointwise(s[1..]);
      var r := ToUpper(s);
      assert r == UpperOf(s[0]) + ToUpper(s[1..]);
      forall i | 0 <= i < |s| ensures r[i] == UpperOf(s[i])[0] {
        if i > 0 { assert s[i] == s[1..][i - 1]; }
      }
    }
  }

  /** A string whose every character has a one-letter capital upper-cases
      to the string of those capitals. */
  lemma ToUpperIs(s: string, t: string)
    requires |s| == |t|
    requires forall i :: 0 <= i < |s| ==> UpperOf(s[i]) == [t[i]]
    ensures ToUpper(s) == t
  {
    ToUpperPointwise(s);
  }

  /** A string of ASCII capitals, digits, '_' and spaces is its own upper case. */
  lemma CapitalsAreUpper(s: string)
    requires forall i :: 0 <= i < |s| ==> 'A' <= s[i] <= 'Z' || '0' <= s[i] <= '9' || s[i] == '_' || s[i] == ' '
    ensures ToUpper(s) == s
  {
    assert forall i :: 0 <= i < |s| ==> !IsLower(s[i]);
  }
}
