/**
 * How a generated text is shown and copied (`src/components/assistente/ResultView.tsx`):
 * the text is cleaned by `stripMarkdown`, split into lines, and each line
 * becomes a spacer, a section header, a numbered item or a paragraph.
 */
module ResultView {
  import opened Text
  import AssistenteTypes

  datatype Block =
    | Spacer              // a blank line: an empty `div`
    | Header(text: string)    // an `h3`
    | Numbered(text: string)  // an indented `p`
    | Paragraph(text: string) // a plain `p`

  /** The class `[A-ZÀ-ÚÃÕ]` (Ã and Õ already lie in À-Ú). */
  predicate HeaderLetter(c: char) {
    'A' <= c <= 'Z' || '\U{00C0}' <= c <= '\U{00DA}'
  }

  /** `/[A-ZÀ-ÚÃÕ]{3,}/.test(t)`: three header letters in a row somewhere in `t`. */
  predicate HasLetterRun(t: string) {
    exists i :: 0 <= i < |t| - 2 && HeaderLetter(t[i]) && HeaderLetter(t[i + 1]) && HeaderLetter(t[i + 2])
  }

  /** The section-header test, on a trimmed line; its length is JavaScript's, in UTF-16 code units. */
  predicate IsHeader(t: string) {
    Utf16Length(t) >= 5 && IsUpperCase(t) && HasLetterRun(t) && !IsDigit(t[0])
  }

  /** Length of the run of ASCII digits `t` starts with. */
  function LeadingDigits(t: string): (n: nat)
    ensures n <= |t|
    ensures forall j :: 0 <= j < n ==> IsDigit(t[j])
    ensures n < |t| ==> !IsDigit(t[n])
  {
    if t != [] && IsDigit(t[0]) then 1 + LeadingDigits(t[1..]) else 0
  }

  /** `/^\d+[\.\)]/.test(t)`, computed by scanning the digits greedily. */
  predicate IsNumbered(t: string) {
    var n := LeadingDigits(t);
    1 <= n < |t| && (t[n] == '.' || t[n] == ')')
  }

  /** The greedy scan agrees with the pattern: some non-empty run of digits followed by '.' or ')'. */
  lemma NumberedMeansDigitsThenMark(t: string)
    ensures IsNumbered(t) <==> exists k :: 1 <= k < |t| && (t[k] == '.' || t[k] == ')')
                                          && forall j :: 0 <= j < k ==> IsDigit(t[j])
  {
    var n := LeadingDigits(t);
    if IsNumbered(t) {
      assert 1 <= n < |t| && (t[n] == '.' || t[n] == ')') && forall j :: 0 <= j < n ==> IsDigit(t[j]);
    }
    if k :| 1 <= k < |t| && (t[k] == '.' || t[k] == ')') && forall j :: 0 <= j < k ==> IsDigit(t[j]) {
      LeadingDigitsAt(t, k);
    }
  }

  /** A run of `k` digits followed by a non-digit is the leading run. */
  lemma {:induction false} LeadingDigitsAt(t: string, k: nat)
    requires k < |t| && !IsDigit(t[k]) && forall j :: 0 <= j < k ==> IsDigit(t[j])
    ensures LeadingDigits(t) == k
  {
    if k > 0 {
      assert forall j :: 0 <= j < k - 1 ==> t[1..][j] == t[j + 1];
      LeadingDigitsAt(t[1..], k - 1);
    }
  }

  /** A header never starts with a digit, so no line is both a header and a numbered item. */
  lemma HeaderNotNumbered(t: string)
    requires IsHeader(t)
    ensures !IsNumbered(t)
  {
    assert LeadingDigits(t) == 0;
  }

  /** The element `renderResult` produces for one line. */
  function Classify(line: string): (b: Block)
    ensures b == Spacer <==> AllSpace(line)
    ensures !b.Spacer? ==> b.text == Trim(line) && b.text != []
    ensures b.Header? <==> !AllSpace(line) && IsHeader(Trim(line))
    ensures b.Numbered? <==> !AllSpace(line) && IsNumbered(Trim(line)) && !IsHeader(Trim(line))
  {
    var t := Trim(line);
    if t == [] then Spacer
    else if IsHeader(t) then Header(t)
    else if IsNumbered(t) then Numbered(t)
    else Paragraph(t)
  }

  /**
   * The length test counts UTF-16 code units: a target emoji and "ABC" are
   * four characters but five units, and the line is a header.
   */
  lemma AstralHeader()
    ensures Classify("\U{1F3AF}ABC") == Header("\U{1F3AF}ABC")
  {
    var t := "\U{1F3AF}ABC";
    assert Unpadded(t);
    TrimUnpadded(t);
    AstralLength();
    assert HeaderLetter(t[1]) && HeaderLetter(t[2]) && HeaderLetter(t[3]);
    assert IsHeader(t);
  }

  lemma AstralLength()
    ensures Utf16Length("\U{1F3AF}ABC") == 5
  {
    var t := "\U{1F3AF}ABC";
    assert Utf16Length(t[4..]) == 0;
    assert Utf16Length(t[3..]) == 1 + Utf16Length(t[4..]);
    assert Utf16Length(t[2..]) == 1 + Utf16Length(t[3..]);
    assert Utf16Length(t[1..]) == 1 + Utf16Length(t[2..]);
  }

  /** Every non-blank line is exactly one of header, numbered item and paragraph. */
  lemma OneClassPerLine(line: string)
    requires !AllSpace(line)
    ensures var b := Classify(line);
            (b.Header? && !IsNumbered(b.text))
            || (b.Numbered? && !IsHeader(b.text))
            || (b.Paragraph? && !IsHeader(b.text) && !IsNumbered(b.text))
  {
    var b := Classify(line);
    if b.Header? {
      HeaderNotNumbered(b.text);
    }
  }

  /** `renderResult`: one element per "\n"-separated line of the cleaned text. */
  function RenderResult(result: string): (blocks: seq<Block>)
    ensures |blocks| == |Split(AssistenteTypes.StripMarkdown(result), '\n')|
    ensures |blocks| == 1 + Occurrences(AssistenteTypes.StripMarkdown(result), '\n')
    ensures forall i :: 0 <= i < |blocks| ==> blocks[i] == Classify(Split(AssistenteTypes.StripMarkdown(result), '\n')[i])
  {
    var cleaned := AssistenteTypes.StripMarkdown(result);
    var lines := Split(cleaned, '\n');
    SplitCount(cleaned, '\n');
    seq(|lines|, i requires 0 <= i < |lines| => Classify(lines[i]))
  }

  /** `handleCopy`: the clipboard receives the cleaned text, not the raw result. */
  function CopyText(result: string): (r: string)
    ensures '#' !in r
    ensures AssistenteTypes.CharsWithin(r, result)
  {
    AssistenteTypes.StripMarkdown(result)
  }

  /** The copied text is exactly the rendered lines joined back with "\n". */
  lemma CopyMatchesRenderedLines(result: string)
    ensures Join(Split(CopyText(result), '\n'), "\n") == CopyText(result)
    ensures |RenderResult(result)| == |Split(CopyText(result), '\n')|
  {
    JoinSplit(CopyText(result), '\n');
    SplitCount(CopyText(result), '\n');
  }
}
