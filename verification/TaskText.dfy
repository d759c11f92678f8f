/** Text fields of stored task models: surrounding white space is stripped before anything else is checked. */
module TaskText {
  import opened Options

  type Text = string

  /** The characters with the Unicode property White_Space. */
  predicate IsSpace(c: char) {
    || '\U{9}' <= c <= '\U{D}' || c == ' ' || c == '\U{85}' || c == '\U{A0}' || c == '\U{1680}'
    || '\U{2000}' <= c <= '\U{200A}' || c == '\U{2028}' || c == '\U{2029}' || c == '\U{202F}'
    || c == '\U{205F}' || c == '\U{3000}'
  }

  /** No white space at either end. */
  predicate Trimmed(s: Text) {
    s == "" || (!IsSpace(s[0]) && !IsSpace(s[|s| - 1]))
  }

  function TrimStart(s: Text): (r: Text)
    ensures |r| <= |s|
    ensures r == "" || (!IsSpace(r[0]) && r[|r| - 1] == s[|s| - 1])
  {
    if s != "" && IsSpace(s[0]) then TrimStart(s[1..]) else s
  }

  function TrimEnd(s: Text): (r: Text)
    ensures |r| <= |s|
    ensures r == "" || (!IsSpace(r[|r| - 1]) && r[0] == s[0])
  {
    if s != "" && IsSpace(s[|s| - 1]) then TrimEnd(s[..|s| - 1]) else s
  }

  /** Stripping gives trimmed text, and changes exactly the text that is not. */
  function Trim(s: Text): (r: Text)
    ensures Trimmed(r)
    ensures r == s <==> Trimmed(s)
  {
    TrimEnd(TrimStart(s))
  }

  ghost predicate Blank(s: Text) {
    forall c <- s :: IsSpace(c)
  }

  lemma {:induction false} TrimStartOfPadded(before: Text, s: Text)
    requires Blank(before) && (s == "" || !IsSpace(s[0]))
    ensures TrimStart(before + s) == s
  {
    if before == "" {
      assert before + s == s;
    } else {
      assert before[0] in before && (before + s)[1..] == before[1..] + s;
      TrimStartOfPadded(before[1..], s);
    }
  }

  lemma {:induction false} TrimEndOfPadded(s: Text, after: Text)
    requires Blank(after) && (s == "" || !IsSpace(s[|s| - 1]))
    ensures TrimEnd(s + after) == s
  {
    if after == "" {
      assert s + after == s;
    } else {
      var n := |after| - 1;
      assert after[n] in after && (s + after)[..|s| + n] == s + after[..n];
      TrimEndOfPadded(s, after[..n]);
    }
  }

  /** What is stripped is the white space around a text and nothing of the text. */
  lemma TrimOfPadded(before: Text, s: Text, after: Text)
    requires Blank(before) && Blank(after) && Trimmed(s)
    ensures Trim(before + s + after) == s
  {
    if s == "" {
      TrimStartOfPadded(before + after, "");
      assert before + s + after == before + after + "";
    } else {
      assert before + s + after == before + (s + after);
      TrimStartOfPadded(before, s + after);
      TrimEndOfPadded(s, after);
    }
  }

  function TrimEach(texts: set<Text>): (r: set<Text>)
    ensures forall s <- r :: Trimmed(s)
    ensures r == texts <==> forall s <- texts :: Trimmed(s)
  {
    set s | s in texts :: Trim(s)
  }

  function TrimOption(text: Option<Text>): (r: Option<Text>)
    ensures r.Some? == text.Some?
    ensures r == text <==> (text.Some? ==> Trimmed(text.value))
    ensures r.Some? ==> Trimmed(r.value)
  {
    if text.None? then None else Some(Trim(text.value))
  }

  // ---------------------------------------------------------------- what a stored field may hold

  const MaxText := 4_096
  const MaxDescription := 32_768
  const MaxIdentifier := 256

  predicate ValidText(s: Text) {
    Trimmed(s) && 1 <= |s| <= MaxText
  }

  predicate ValidDescription(s: Text) {
    Trimmed(s) && |s| <= MaxDescription
  }

  predicate IdentifierChar(c: char) {
    'a' <= c <= 'z' || '0' <= c <= '9' || c in "_:.@/-"
  }

  predicate IsIdentifier(s: Text) {
    2 <= |s| <= MaxIdentifier && 'a' <= s[0] <= 'z' && forall i | 0 <= i < |s| :: IdentifierChar(s[i])
  }

  /** The limits of the field types, and the pattern of an identifier: a lower-case letter followed by 1 to 255
      characters out of lower-case letters, digits and six marks. */
  lemma FieldLimits(s: Text)
    ensures ValidText(s) <==> Trim(s) == s && 1 <= |s| <= 4_096
    ensures ValidDescription(s) <==> Trim(s) == s && |s| <= 32_768
    ensures IsIdentifier(s) <==>
      && 1 <= |s| - 1 <= 255 && s[0] in "abcdefghijklmnopqrstuvwxyz"
      && forall c <- s[1..] :: c in "abcdefghijklmnopqrstuvwxyz" || c in "0123456789" || c in "_:.@/-"
  {
    LettersAndDigits();
    if 1 <= |s| {
      assert forall c <- s[1..] :: exists i | 1 <= i < |s| :: s[i] == c;
      assert forall i | 1 <= i < |s| :: s[i] in s[1..];
    }
  }

  lemma LettersAndDigits()
    ensures forall c: char :: c in "abcdefghijklmnopqrstuvwxyz" <==> 'a' <= c <= 'z'
    ensures forall c: char :: c in "0123456789" <==> '0' <= c <= '9'
  {
    var letters, digits := "abcdefghijklmnopqrstuvwxyz", "0123456789";
    assert forall i | 0 <= i < 26 :: letters[i] as int == 'a' as int + i;
    assert forall i | 0 <= i < 10 :: digits[i] as int == '0' as int + i;
    forall c: char | 'a' <= c <= 'z'
      ensures c in letters
    {
      assert letters[c as int - 'a' as int] == c;
    }
    forall c: char | '0' <= c <= '9'
      ensures c in digits
    {
      assert digits[c as int - '0' as int] == c;
    }
  }

  lemma IdentifierIsTrimmed(s: Text)
    requires IsIdentifier(s)
    ensures Trimmed(s) && Trim(s) == s
  {
    assert IdentifierChar(s[|s| - 1]);
  }
}
