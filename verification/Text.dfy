/** Reasons typed by managers must not be blank. */
module Text {

  /** str.isspace for one character. */
  predicate IsSpace(c: char) {
    var n := c as int;
    || 0x09 <= n <= 0x0D || 0x1C <= n <= 0x20 || n == 0x85 || n == 0xA0 || n == 0x1680 || 0x2000 <= n <= 0x200A
    || n == 0x2028 || n == 0x2029 || n == 0x202F || n == 0x205F || n == 0x3000
  }

  /** s.strip() is empty. */
  predicate BlankText(s: string) { forall i :: 0 <= i < |s| ==> IsSpace(s[i]) }

  /** A text is not blank as soon as one of its characters is none of the Unicode white space. */
  lemma BlankIff(s: string)
    ensures BlankText(s) <==> forall i :: 0 <= i < |s| ==>
      (s[i] as int) in {0x09, 0x0A, 0x0B, 0x0C, 0x0D, 0x1C, 0x1D, 0x1E, 0x1F, 0x20, 0x85, 0xA0, 0x1680, 0x2000, 0x2001,
                        0x2002, 0x2003, 0x2004, 0x2005, 0x2006, 0x2007, 0x2008, 0x2009, 0x200A, 0x2028, 0x2029, 0x202F,
                        0x205F, 0x3000}
  {
    assert forall i :: 0 <= i < |s| ==> (IsSpace(s[i]) <==>
      (s[i] as int) in {0x09, 0x0A, 0x0B, 0x0C, 0x0D, 0x1C, 0x1D, 0x1E, 0x1F, 0x20, 0x85, 0xA0, 0x1680, 0x2000, 0x2001,
                        0x2002, 0x2003, 0x2004, 0x2005, 0x2006, 0x2007, 0x2008, 0x2009, 0x200A, 0x2028, 0x2029, 0x202F,
                        0x205F, 0x3000});
  }
}
