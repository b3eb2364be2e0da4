/**
 Player names as the start dialog resolves them: the typed name with
 surrounding white space removed, or a fixed default when nothing is left.
 */
module Names {

  /** The characters JavaScript's String.prototype.trim removes: the
      ECMAScript white space characters (tab, vertical tab, form feed,
      the byte order mark and every Unicode space separator) and its line
      terminators (line feed, carriage return, U+2028 and U+2029). */
  predicate IsSpace(ch: char)
  {
    ch == '\t' || ch == '\n' || ch == '\U{000B}' || ch == '\U{000C}' || ch == '\r' ||
    ch == ' ' || ch == '\U{00A0}' || ch == '\U{1680}' ||
    ('\U{2000}' <= ch <= '\U{200A}') ||
    ch == '\U{2028}' || ch == '\U{2029}' || ch == '\U{202F}' || ch == '\U{205F}' ||
    ch == '\U{3000}' || ch == '\U{FEFF}'
  }

  predicate AllSpace(s: string)
  {
    forall k :: 0 <= k < |s| ==> IsSpace(s[k])
  }

  /** How many white space characters s starts with. */
  function LeadingSpaces(s: string): (n: nat)
    ensures n <= |s|
    ensures forall k :: 0 <= k < n ==> IsSpace(s[k])
    ensures n < |s| ==> !IsSpace(s[n])
  {
    if s != [] && IsSpace(s[0]) then
      var n := 1 + LeadingSpaces(s[1..]);
      assert forall k :: 1 <= k < n ==> s[k] == s[1..][k - 1];
      n
    else
      0
  }

  /** Where the white space that ends s begins. */
  function TrailingStart(s: string): (m: nat)
    ensures m <= |s|
    ensures forall k :: m <= k < |s| ==> IsSpace(s[k])
    ensures m > 0 ==> !IsSpace(s[m - 1])
  {
    if s != [] && IsSpace(s[|s| - 1]) then
      var m := TrailingStart(s[..|s| - 1]);
      assert forall k :: m <= k < |s| - 1 ==> s[k] == s[..|s| - 1][k];
      m
    else
      |s|
  }

  /** String.prototype.trim: s with white space cut from both ends. The
      result is empty exactly when s is all white space; otherwise it
      starts and ends with a character that is not white space. */
  function Trim(s: string): (r: string)
    ensures |r| <= |s|
    ensures r == [] <==> AllSpace(s)
    ensures r != [] ==> !IsSpace(r[0]) && !IsSpace(r[|r| - 1])
  {
    var i := LeadingSpaces(s);
    if i == |s| then [] else s[i..TrailingStart(s)]
  }

  /** What trim removes is white space and nothing else: the result is the
      slice of s between a white space prefix and a white space suffix. */
  lemma TrimIsSlice(s: string)
    ensures exists i :: 0 <= i && i + |Trim(s)| <= |s| && Trim(s) == s[i..i + |Trim(s)|] &&
                        AllSpace(s[..i]) && AllSpace(s[i + |Trim(s)|..])
  {
    var i := LeadingSpaces(s);
    var r := Trim(s);
    if i == |s| {
      assert AllSpace(s[..i]) by {
        forall k | 0 <= k < i ensures IsSpace(s[..i][k]) {
          assert s[..i][k] == s[k];
        }
      }
      assert r == s[i..i];
    } else {
      assert AllSpace(s[..i]) by {
        forall k | 0 <= k < i ensures IsSpace(s[..i][k]) {
          assert s[..i][k] == s[k];
        }
      }
      var m := TrailingStart(s);
      assert AllSpace(s[m..]) by {
        forall k | 0 <= k < |s| - m ensures IsSpace(s[m..][k]) {
          assert s[m..][k] == s[m + k];
        }
      }
    }
  }

  /** The name the start dialog settles on: the trimmed input, or the
      fallback when the input is empty or only white space. */
  function DefaultName(input: string, fallback: string): (name: string)
    ensures AllSpace(input) ==> name == fallback
    ensures !AllSpace(input) ==> name != [] && name == Trim(input)
  {
    var t := Trim(input);
    if t == "" then fallback else t
  }
}
