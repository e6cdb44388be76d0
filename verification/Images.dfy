/**
 An image block's source and description, kept as `![alt](src)` in its text.
 */
module Images {
  import opened Text
  import opened Markdown
  import RoundTrip

  function StripBrackets(alt: string): string {
    if alt == "" then ""
    else (if alt[0] == '[' || alt[0] == ']' then "" else [alt[0]]) + StripBrackets(alt[1..])
  }

  function ImageText(alt: string, src: string): string {
    "![" + StripBrackets(alt) + "](" + Trim(src) + ")"
  }

  /** Description and source; both empty when the text is not an image. */
  function ImageParts(text: string): (string, string) {
    if !IsImage(text) then ("", "")
    else
      var t := text[2..];
      var k := Find(t, ']');
      (t[..k], t[k + 2..|t| - 1])
  }

  lemma {:induction false} StrippedHasNoBrackets(alt: string)
    ensures ']' !in StripBrackets(alt) && '[' !in StripBrackets(alt)
    ensures forall c :: c in StripBrackets(alt) ==> c in alt
  {
    if alt != "" { StrippedHasNoBrackets(alt[1..]); }
  }

  /** What has no brackets is kept as it is, */
  lemma {:induction false} OtherCharactersStay(alt: string)
    requires '[' !in alt && ']' !in alt
    ensures StripBrackets(alt) == alt
  {
    if alt != "" {
      OtherCharactersStay(alt[1..]);
      assert alt == [alt[0]] + alt[1..];
    }
  }

  /** a bracket is taken out wherever it stands, and what is on either side of it stays. */
  lemma {:induction false} BracketsGo(a: string, c: char, b: string)
    requires c == '[' || c == ']'
    ensures StripBrackets(a + ([c] + b)) == StripBrackets(a) + StripBrackets(b)
  {
    if a == "" {
      assert a + ([c] + b) == [c] + b && ([c] + b)[1..] == b;
    } else {
      assert (a + ([c] + b))[1..] == a[1..] + ([c] + b);
      BracketsGo(a[1..], c, b);
    }
  }

  lemma {:induction false} FindInside(s: string, c: char, rest: string)
    requires c in s
    ensures Find(s + rest, c) < |s|
  {
    if s[0] != c {
      assert (s + rest)[1..] == s[1..] + rest;
      FindInside(s[1..], c, rest);
    }
  }

  /** The text's parts after the opening, for any description and source. */
  lemma TextParts(text: string, alt: string, src: string)
    requires text == "![" + (alt + ("](" + (src + ")"))) && ']' !in alt
    ensures "![" <= text && Find(text[2..], ']') == |alt| && "](" <= text[2..][|alt|..]
    ensures text[2..][..|alt|] == alt && text[2..][|alt| + 2..] == src + ")"
  {
    var t := alt + ("](" + (src + ")"));
    assert text[2..] == t;
    FindBefore(alt, ']', "](" + (src + ")"));
    assert t[|alt|..] == "](" + (src + ")");
    assert t[|alt| + 2..] == src + ")";
  }

  lemma IsImageIff(text: string, alt: string, src: string)
    requires text == "![" + (alt + ("](" + (src + ")"))) && ']' !in alt
    ensures IsImage(text) <==> ')' !in src
  {
    TextParts(text, alt, src);
    if ')' in src { FindInside(src, ')', ")"); } else { FindBefore(src, ')', ")"); }
  }

  lemma PartsOfImage(text: string, alt: string, src: string)
    requires text == "![" + (alt + ("](" + (src + ")"))) && ']' !in alt
    requires IsImage(text)
    ensures ImageParts(text) == (alt, src)
  {
    TextParts(text, alt, src);
    var t := text[2..];
    WithoutLast(t, |alt| + 2, src);
  }

  lemma WithoutLast(t: string, k: nat, src: string)
    requires k <= |t| && t[k..] == src + ")"
    ensures t[k..|t| - 1] == src
  {
    assert t[k..|t| - 1] == t[k..][..|src|];
  }

  /** What is written in an image block is read back from it exactly when its address has no closing parenthesis. */
  lemma ImageRoundTripIff(alt: string, src: string)
    ensures ImageParts(ImageText(alt, src)) == (StripBrackets(alt), Trim(src)) <==> ')' !in Trim(src)
  {
    var a, s, text := StripBrackets(alt), Trim(src), ImageText(alt, src);
    StrippedHasNoBrackets(alt);
    IsImageIff(text, a, s);
    if ')' !in s { PartsOfImage(text, a, s); }
  }

  lemma OneLineParts(alt: string, src: string)
    ensures OneLine(ImageText(alt, src)) <==> OneLine(StripBrackets(alt)) && OneLine(Trim(src))
  {
    var a, s, text := StripBrackets(alt), Trim(src), ImageText(alt, src);
    if OneLine(text) {
      forall i | 0 <= i < |a| ensures a[i] != '\n' && a[i] != '\r' { assert text[i + 2] == a[i]; }
      forall i | 0 <= i < |s| ensures s[i] != '\n' && s[i] != '\r' { assert text[|a| + 4 + i] == s[i]; }
    }
  }

  /** And the block survives a save exactly when, besides, neither part has a line break. */
  lemma ImageTextIsGoodIff(alt: string, src: string)
    ensures OneLine(ImageText(alt, src)) && IsImage(ImageText(alt, src)) <==>
              (')' !in Trim(src) && OneLine(StripBrackets(alt)) && OneLine(Trim(src)))
  {
    StrippedHasNoBrackets(alt);
    IsImageIff(ImageText(alt, src), StripBrackets(alt), Trim(src));
    OneLineParts(alt, src);
  }

  lemma ImageBlockSurvivesIff(alt: string, src: string)
    ensures var items := [Item(Image, ImageText(alt, src), false, 0)];
            Parse(Serialize(items)) == items <==>
              (')' !in Trim(src) && OneLine(StripBrackets(alt)) && OneLine(Trim(src)))
  {
    ImageTextIsGoodIff(alt, src);
    ImageSurvivesIff(ImageText(alt, src));
  }

  lemma ImageSurvivesIff(text: string)
    ensures var items := [Item(Image, text, false, 0)];
            Parse(Serialize(items)) == items <==> (OneLine(text) && IsImage(text))
  {
    var item := Item(Image, text, false, 0);
    RoundTrip.RoundTripIff([item]);
    if RoundTrip.Writable(item) { RoundTrip.OneBlockSurvives(item); } else { assert !RoundTrip.Writable([item][0]); }
  }
}
