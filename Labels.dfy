/** The `drawtext` clause both composers write to put a label on a frame or a
    grid cell, with the styling options they share (font size and colour,
    top or bottom position, optional background box). */
module Labels {
  import opened Text
  import opened Quoting

  datatype LabelStyle = LabelStyle(
    size: int,          // --label-size, default 24
    color: string,      // --label-color, default "white"
    position: string,   // --label-position, "bottom" (default) or "top"
    box: bool,          // not --no-label-box, default on
    boxColor: string    // --label-box-color, default "black@0.5"
  )

  function DefaultStyle(): LabelStyle {
    LabelStyle(24, "white", "bottom", true, "black@0.5")
  }

  /** `40` pixels from the top for `top`, otherwise 40 above the bottom edge. */
  function LabelY(position: string): string {
    if position == "top" then "40" else "h-40"
  }

  function BoxParams(style: LabelStyle): string {
    if style.box then ":box=1:boxcolor=" + style.boxColor else ""
  }

  /** `drawtext=text='<escaped>':x=(w-tw)/2:y=<y>:fontcolor=<c>:fontsize=<s><box>`. */
  function Drawtext(style: LabelStyle, text: string): string
  {
    "drawtext=text=" + Quote(text) + Placement(style) + BoxParams(style)
  }

  /** The label stage as its opening, the quoted text and the placement. */
  lemma DrawtextLayout(style: LabelStyle, text: string)
    ensures Drawtext(style, text) == "drawtext=text=" + Quote(text) + (Placement(style) + BoxParams(style))
  {
  }

  /** Centred horizontally, at the configured height, colour and size. */
  function Placement(style: LabelStyle): string
  {
    ":x=(w-tw)/2:y=" + LabelY(style.position) + ":fontcolor=" + style.color
      + ":fontsize=" + IntStr(style.size)
  }

  /** What a reader of the clause gets: the quoted text after `text=` reads
      back as the label; the clause ends with the box parameters when the box
      is on and with the font size when it is off. */
  lemma DrawtextCarriesLabel(style: LabelStyle, text: string)
    ensures var d := Drawtext(style, text);
      && StartsWith(d, "drawtext=text=")
      && |d| >= 14 + |Quote(text)|
      && Unquote(d[14..14 + |Quote(text)|], false) == text
      && (style.box ==> EndsWith(d, ":box=1:boxcolor=" + style.boxColor))
      && (!style.box ==> EndsWith(d, ":fontsize=" + IntStr(style.size)))
  {
    DrawtextLayout(style, text);
    DrawtextOpens(style, text);
    QuotedWithin(Drawtext(style, text), "drawtext=text=", text, Placement(style) + BoxParams(style));
    DrawtextEnds(style, text);
  }

  lemma DrawtextOpens(style: LabelStyle, text: string)
    ensures StartsWith(Drawtext(style, text), "drawtext=text=")
  {
    var head := "drawtext=text=" + Quote(text);
    DrawtextLayout(style, text);
    StartsWithConcat(head, Placement(style) + BoxParams(style));
    StartsWithConcat("drawtext=text=", Quote(text));
    StartsWithTransitive(Drawtext(style, text), head, "drawtext=text=");
  }

  lemma DrawtextEnds(style: LabelStyle, text: string)
    ensures style.box ==> EndsWith(Drawtext(style, text), ":box=1:boxcolor=" + style.boxColor)
    ensures !style.box ==> EndsWith(Drawtext(style, text), ":fontsize=" + IntStr(style.size))
  {
    var head := "drawtext=text=" + Quote(text);
    if style.box {
      EndsWithConcat(head + Placement(style), BoxParams(style));
    } else {
      var f := ":fontsize=" + IntStr(style.size);
      var p := ":x=(w-tw)/2:y=" + LabelY(style.position) + ":fontcolor=" + style.color;
      assert Drawtext(style, text) == (head + p) + f;
      EndsWithConcat(head + p, f);
    }
  }
}
