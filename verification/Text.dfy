/** The C string functions the program relies on, for the characters of the C locale. */
module Text {
  function Lower(c: char): char {
    if 'A' <= c <= 'Z' then (c as int + 32) as char else c
  }

  /** strncasecmp(s, key, strlen(key)) is 0. */
  predicate StartsWithNoCase(s: string, key: string) {
    |key| <= |s| && forall i :: 0 <= i < |key| ==> Lower(s[i]) == Lower(key[i])
  }

  /** What ignoring case comes to, letter by letter: at each place of the key the same character, or the
      other case of the same letter, 32 codes away. */
  lemma NoCaseMeans(s: string, key: string)
    ensures StartsWithNoCase(s, key) <==>
            |key| <= |s| && forall i :: 0 <= i < |key| ==>
              || s[i] == key[i]
              || (65 <= s[i] as int <= 90 && key[i] as int == s[i] as int + 32)
              || (65 <= key[i] as int <= 90 && s[i] as int == key[i] as int + 32)
  {
  }

  /** Texts that differ in case only begin with the same keys, and a key is found in front of any rest. */
  lemma CaseBlind(s: string, t: string, key: string, rest: string)
    requires |s| == |t|
    requires forall i :: 0 <= i < |s| ==>
               || s[i] == t[i]
               || (65 <= s[i] as int <= 90 && t[i] as int == s[i] as int + 32)
               || (65 <= t[i] as int <= 90 && s[i] as int == t[i] as int + 32)
    ensures StartsWithNoCase(s, key) == StartsWithNoCase(t, key)
    ensures StartsWithNoCase(key + rest, key)
  {
    assert forall i :: 0 <= i < |s| ==> Lower(s[i]) == Lower(t[i]);
  }

  /** strncmp(s, key, strlen(key)) is 0. */
  predicate StartsWith(s: string, key: string) {
    key <= s
  }

  predicate IsSpace(c: char) {
    c == ' ' || '\t' <= c <= '\r'
  }

  function SkipSpaces(s: string): (r: string)
    ensures r == "" || !IsSpace(r[0])
    ensures |r| <= |s| && s[|s| - |r|..] == r
  {
    if s != "" && IsSpace(s[0]) then SkipSpaces(s[1..]) else s
  }

  /** The space characters are the blank and the codes 9 to 13. */
  lemma SpacesAre(c: char)
    ensures IsSpace(c) <==> c as int == 32 || 9 <= c as int <= 13
  {
  }

  ghost predicate AllSpace(s: string) {
    forall i :: 0 <= i < |s| ==> IsSpace(s[i])
  }

  /** They are skipped as far as they go. */
  lemma {:induction false} SkipsSpaces(blanks: string, rest: string)
    requires AllSpace(blanks) && (rest == "" || !IsSpace(rest[0]))
    ensures SkipSpaces(blanks + rest) == rest
  {
    hide IsSpace;
    if blanks == "" {
      assert blanks + rest == rest;
    } else {
      assert (blanks + rest)[0] == blanks[0] && (blanks + rest)[1..] == blanks[1..] + rest;
      SkipsSpaces(blanks[1..], rest);
    }
  }
}
