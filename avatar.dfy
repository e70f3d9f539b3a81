/**
 * The avatar: a friend's photo when there is one, otherwise the initials of
 * the friend's name (first letter of the first and of the last word,
 * upper-cased) in a circle.
 */
module Avatar {
  import opened Optional
  import opened Strings

  /** `s.charAt(0)`: the first character, or the empty string. */
  function CharAt0(s: string): (r: string)
    ensures |r| <= 1 && (s != [] <==> |r| == 1) && (s != [] ==> r[0] == s[0])
  {
    if s == [] then "" else [s[0]]
  }

  /**
   * `getInitials`: "?" for a blank name; otherwise the initials of the words
   * of the trimmed name.
   */
  function GetInitials(name: string): (r: string)
    ensures |r| <= 2
    ensures Trim(name) == [] ==> r == "?"
  {
    var trimmed := Trim(name);
    if trimmed == [] then "?" else WordInitials(SplitWhitespace(trimmed))
  }

  /** The first letter of the only word, or of the first and the last word, upper-cased. */
  function WordInitials(parts: seq<string>): (r: string)
    requires |parts| >= 1
    ensures |r| <= 2
  {
    if |parts| == 1 then ToUpper(CharAt0(parts[0]))
    else
      var first := CharAt0(parts[0]);
      var last := CharAt0(parts[|parts| - 1]);
      ToUpper(first + last)
  }

  lemma InitialsOfParts(name: string, trimmed: string, parts: seq<string>)
    requires Trim(name) == trimmed && trimmed != [] && SplitWhitespace(trimmed) == parts
    ensures GetInitials(name) == WordInitials(parts)
  {
  }

  /**
   * Words whose first and last are non-empty give one letter per word, at
   * most two, the first being the first word's first letter upper-cased.
   */
  lemma WordInitialsShape(parts: seq<string>, c: char)
    requires |parts| >= 1 && parts[0] != [] && parts[|parts| - 1] != [] && parts[0][0] == c
    ensures var r := WordInitials(parts);
      && 1 <= |r| <= 2 && r[0] == ToUpperChar(c)
      && (|r| == 1 <==> |parts| == 1)
      && (|parts| == 1 ==> r == [ToUpperChar(c)])
      && (|parts| > 1 ==> r == [ToUpperChar(c), ToUpperChar(parts[|parts| - 1][0])])
  {
  }

  /**
   * A blank name shows "?"; any other name shows one or two letters, the
   * first being the name's first visible character upper-cased, and one
   * letter exactly when the trimmed name is a single word.
   */
  lemma InitialsShape(name: string)
    ensures AllWhitespace(name) ==> GetInitials(name) == "?"
    ensures !AllWhitespace(name) ==> var r := GetInitials(name);
      && 1 <= |r| <= 2
      && r[0] == ToUpperChar(TrimStart(name)[0])
      && (|r| == 1 <==> NoWhitespace(Trim(name)))
  {
    TrimBlank(name);
    var t := Trim(name);
    if t != [] {
      TrimFirst(name);
      InitialsOfParts(name, t, SplitWhitespace(t));
      InitialsOfTrimmed(t);
    }
  }

  lemma InitialsOfTrimmed(t: string)
    requires t != [] && !IsWhitespace(t[0]) && !IsWhitespace(t[|t| - 1])
    ensures var r := WordInitials(SplitWhitespace(t));
      1 <= |r| <= 2 && r[0] == ToUpperChar(t[0]) && (|r| == 1 <==> NoWhitespace(t))
  {
    var parts := SplitTrimmed(t);
    WordInitialsShape(parts, t[0]);
  }

  /** A single word shows its first letter. */
  lemma InitialsOfWord(word: string)
    requires word != [] && NoWhitespace(word)
    ensures GetInitials(word) == [ToUpperChar(word[0])]
  {
    TrimTrimmed(word);
    InitialsOfParts(word, word, [word]);
  }

  /** Two words separated by a space show the first letter of each. */
  lemma InitialsOfTwoWords(first: string, last: string)
    requires first != [] && NoWhitespace(first) && last != [] && NoWhitespace(last)
    ensures GetInitials(first + " " + last) == [ToUpperChar(first[0]), ToUpperChar(last[0])]
  {
    var s := first + " " + last;
    assert s[0] == first[0] && s[|s| - 1] == last[|last| - 1];
    TrimTrimmed(s);
    SplitTwoWords(first, last);
    InitialsOfParts(s, s, [first, last]);
    WordInitialsShape([first, last], first[0]);
  }

  lemma SplitTwoWords(first: string, last: string)
    requires NoWhitespace(first) && last != [] && NoWhitespace(last)
    ensures SplitWhitespace(first + " " + last) == [first, last]
  {
    SplitWhitespaceFirst(first, last);
    assert SplitWhitespace(last) == [last];
  }

  lemma SplitThreeWords(first: string, middle: string, last: string)
    requires NoWhitespace(first) && middle != [] && NoWhitespace(middle) && last != [] && NoWhitespace(last)
    ensures SplitWhitespace(first + " " + middle + " " + last) == [first, middle, last]
  {
    var tail := middle + " " + last;
    assert first + " " + middle + " " + last == first + " " + tail;
    SplitTwoWords(middle, last);
    assert !IsWhitespace(middle[0]);
    assert tail[0] == middle[0];
    SplitWhitespaceFirst(first, tail);
    assert [first] + [middle, last] == [first, middle, last];
  }

  /** Three words show the first letters of the first and the last; the middle word is skipped. */
  lemma InitialsOfThreeWords(first: string, middle: string, last: string)
    requires first != [] && NoWhitespace(first) && middle != [] && NoWhitespace(middle)
    requires last != [] && NoWhitespace(last)
    ensures GetInitials(first + " " + middle + " " + last) == [ToUpperChar(first[0]), ToUpperChar(last[0])]
  {
    var s := first + " " + middle + " " + last;
    assert s[0] == first[0] && s[|s| - 1] == last[|last| - 1];
    TrimTrimmed(s);
    SplitThreeWords(first, middle, last);
    InitialsOfParts(s, s, [first, middle, last]);
    WordInitialsShape([first, middle, last], first[0]);
  }

  /** White space around the name does not change its initials. */
  lemma InitialsIgnorePadding(pre: string, name: string, post: string)
    requires AllWhitespace(pre) && AllWhitespace(post)
    ensures GetInitials(pre + name + post) == GetInitials(name)
  {
    TrimPadded(pre, name, post);
  }

  /** A word of ASCII letters holds no white space. */
  lemma LettersOnly(w: string)
    requires forall i :: 0 <= i < |w| ==> 'A' <= w[i] <= 'z'
    ensures NoWhitespace(w)
  {
  }

  /** The component's documented examples. */
  lemma InitialsOfJohnDoe(name: string)
    requires name == "John Doe"
    ensures GetInitials(name) == "JD"
  {
    LettersOnly("John");
    LettersOnly("Doe");
    assert name == "John" + " " + "Doe";
    InitialsOfTwoWords("John", "Doe");
  }

  lemma InitialsOfMadonna()
    ensures GetInitials("Madonna") == "M"
  {
    LettersOnly("Madonna");
    InitialsOfWord("Madonna");
  }

  lemma InitialsOfMaryJaneWatson(name: string)
    requires name == "Mary Jane Watson"
    ensures GetInitials(name) == "MW"
  {
    LettersOnly("Mary");
    LettersOnly("Jane");
    LettersOnly("Watson");
    assert name == "Mary" + " " + "Jane" + " " + "Watson";
    InitialsOfThreeWords("Mary", "Jane", "Watson");
  }

  lemma InitialsOfBlank()
    ensures GetInitials("   ") == "?"
  {
    InitialsShape("   ");
  }

  const DefaultSize: real := 80.0

  /** What the avatar draws. */
  datatype AvatarView =
    | Photo(uri: string, size: real, borderRadius: real, accessibilityLabel: string)
    | Initials(text: string, size: real, borderRadius: real, fontSize: real, accessibilityLabel: string)

  /**
   * `Avatar`: a circle of the given size (80 by default); the photo when the
   * image URI is present and non-empty, the initials at 40% of the size otherwise.
   */
  function RenderAvatar(name: string, imageUri: Option<string>, size: Option<real>): (view: AvatarView)
    ensures view.Photo? <==> imageUri.Some? && imageUri.value != ""
    ensures view.Photo? ==> view.uri == imageUri.value
    ensures view.Initials? ==> view.text == GetInitials(name) && view.fontSize * 5.0 == view.size * 2.0
    ensures view.size == (if size.Some? then size.value else DefaultSize)
    ensures view.borderRadius * 2.0 == view.size
    ensures view.accessibilityLabel == name + "'s avatar"
  {
    var s := if size.Some? then size.value else DefaultSize;
    var a11y := name + "'s avatar";
    if imageUri.Some? && imageUri.value != "" then Photo(imageUri.value, s, s / 2.0, a11y)
    else Initials(GetInitials(name), s, s / 2.0, s * 0.4, a11y)
  }
}
