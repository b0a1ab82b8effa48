/**
 Format-to-colour lookup (`getBackgroundColor`, main.js:6-10 and 20-28) and
 the override a download button applies to the default colour (main.js:457).
 */
module Colors {

  const GreenFormats: seq<string> := ["17", "18", "22"]
  const BlueFormats: seq<string> := ["139", "140", "141", "249", "250", "251", "599", "600"]

  const Green: string := "green"
  const Blue: string := "#3800ff"
  const DefaultColor: string := "#9e0cf2"
  /** What a download button shows instead of `DefaultColor`. */
  const ButtonDefault: string := "#3f5974"

  /** The colours are pairwise distinct. */
  lemma ColorsDistinct()
    ensures Green != Blue && Green != DefaultColor && Blue != DefaultColor
    ensures ButtonDefault != Green && ButtonDefault != Blue && ButtonDefault != DefaultColor
  {
    assert Green[0] != Blue[0] && Green[0] != DefaultColor[0] && Green[0] != ButtonDefault[0];
    assert Blue[1] != DefaultColor[1] && Blue[2] != ButtonDefault[2];
    assert DefaultColor[1] != ButtonDefault[1];
  }

  /** No format id is in both lists. */
  lemma FormatListsDisjoint(itag: string)
    ensures !(itag in GreenFormats && itag in BlueFormats)
  {
    if itag in GreenFormats {
      assert |itag| == 2;
    }
  }

  /**
   `getBackgroundColor(itag)`: green for the green list, blue for the blue
   list, the default colour for every other id.
   */
  function GetBackgroundColor(itag: string): (r: string)
    ensures r == Green <==> itag in GreenFormats
    ensures r == Blue <==> itag in BlueFormats
    ensures r == DefaultColor <==> itag !in GreenFormats && itag !in BlueFormats
  {
    ColorsDistinct();
    FormatListsDisjoint(itag);
    if itag in GreenFormats then Green
    else if itag in BlueFormats then Blue
    else DefaultColor
  }

  /**
   The colour of a download button for `itag`: the lookup's colour, except
   that the default colour is painted `ButtonDefault`. A button is never
   painted the default colour.
   */
  function ButtonColor(itag: string): (r: string)
    ensures r != DefaultColor
    ensures r == ButtonDefault <==> GetBackgroundColor(itag) == DefaultColor
    ensures r != ButtonDefault ==> r == GetBackgroundColor(itag)
  {
    ColorsDistinct();
    var bgColor := GetBackgroundColor(itag);
    if bgColor == DefaultColor then ButtonDefault else bgColor
  }

  /** `18` is green, `140` is blue, an unlisted id such as `5` gets the default. */
  lemma ColorExamples()
    ensures GetBackgroundColor("18") == Green
    ensures GetBackgroundColor("140") == Blue
    ensures GetBackgroundColor("5") == DefaultColor
    ensures ButtonColor("5") == ButtonDefault
  {
    assert "18" == GreenFormats[1];
    assert "140" == BlueFormats[1];
    assert "5" !in GreenFormats && "5" !in BlueFormats by {
      forall k | 0 <= k < |GreenFormats| ensures GreenFormats[k] != "5" { assert |GreenFormats[k]| > 1; }
      forall k | 0 <= k < |BlueFormats| ensures BlueFormats[k] != "5" { assert |BlueFormats[k]| > 1; }
    }
  }
}
