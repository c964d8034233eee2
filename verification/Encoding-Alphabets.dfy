/** The characters of RFC 4648 and RFC 7468, as those documents spell them. */
module Alphabets {
  import opened Wrappers
  import opened Words
  import opened EncodingTypes
  import opened Base64Spec
  import opened TextLines
  import opened PemSpec

  /** Table 1 of section 4 of RFC 4648. */
  const ALPHABET: string := UPPER + LOWER + "0123456789+/"

  const UPPER: string := "ABCDEFGHIJKLMNOPQRSTUVWXYZ"

  const LOWER: string := "abcdefghijklmnopqrstuvwxyz"

  function Code(c: char): (n: Byte)
    requires c < 128 as char
  {
    c as int
  }

  /** An ASCII string as bytes. */
  function Ascii(s: string): (text: Text)
    requires forall i | 0 <= i < |s| :: s[i] < 128 as char
    ensures |text| == |s|
  {
    seq(|s|, i requires 0 <= i < |s| => Code(s[i]))
  }

  lemma LettersAre(v: nat)
    requires v < 64
    ensures |ALPHABET| == 64 && ALPHABET[v] < 128 as char && Letter(v) == Code(ALPHABET[v])
  {
    if v < 26 {
      UpperCase(v);
    } else if v < 52 {
      LowerCase(v);
    }
  }

  lemma UpperCase(v: nat)
    requires v < 26
    ensures ALPHABET[v] == UPPER[v] < 128 as char && Code(UPPER[v]) == 65 + v
  {
  }

  lemma LowerCase(v: nat)
    requires 26 <= v < 52
    ensures ALPHABET[v] == LOWER[v - 26] < 128 as char && Code(LOWER[v - 26]) == 71 + v
  {
  }

  /** A character stands for its place in the table, and every other for nothing. */
  lemma ValuesAre(c: Byte, v: nat)
    requires v < 64
    ensures ALPHABET[v] < 128 as char && (Value(c) == Some(v) <==> c == Code(ALPHABET[v]))
  {
    LettersAre(v);
    if Value(c) == Some(v) {
      LetterOfValue(c);
    }
  }

  /** The encapsulation boundaries of section 3 of RFC 7468, and the padding character. */
  lemma FramesAre()
    ensures BEGIN == Ascii("-----BEGIN ") && END == Ascii("-----END ") && DASHES == Ascii("-----")
    ensures LINE == 64 && PAD == Code('=') && CR == Code('\r') && LF == Code('\n')
    ensures forall c: Byte :: Separator(c) <==> c == Code(' ') || c == Code('-')
  {
    assert "-----BEGIN " == ['-', '-', '-', '-', '-', 'B', 'E', 'G', 'I', 'N', ' '];
    assert "-----END " == ['-', '-', '-', '-', '-', 'E', 'N', 'D', ' '];
  }
}
