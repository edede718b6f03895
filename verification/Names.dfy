/** Which texts are names: DNS labels, and labels joined by dots. */
module Names {
  predicate LabelChar(c: char) { 'a' <= c <= 'z' || '0' <= c <= '9' || c == '-' }

  predicate ValidLabelName(name: string) {
    && 0 < |name| <= 63 && (forall i | 0 <= i < |name| :: LabelChar(name[i]))
    && name[0] != '-' && name[|name| - 1] != '-'
  }

  /** The parts of a text between its dots. */
  function DotParts(text: string): (parts: seq<string>)
    ensures parts != []
  {
    if text == "" then [""]
    else
      var rest := DotParts(text[1..]);
      if text[0] == '.' then [""] + rest else [[text[0]] + rest[0]] + rest[1..]
  }

  predicate ValidName(name: string) {
    0 < |name| <= 253 && forall part | part in DotParts(name) :: ValidLabelName(part)
  }
}
