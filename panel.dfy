/** RenderTitledPanel of internal/ui/components/panel.go: a rounded border
    around the content lines, with an optional title on the top border.
    Colouring is the identity; lipgloss.Width is the parameter `textWidth`. */
module Panel {
  import opened Text

  /** How many content lines the panel shows: at least innerHeight when that is positive. */
  function PaddedCount(k: nat, innerHeight: int): nat
  {
    if innerHeight > 0 then Max(k, innerHeight) else k
  }

  /** The content lines after padding with empty lines up to innerHeight. */
  function ContentLines(content: string, innerHeight: int): (ls: seq<string>)
    ensures |ls| == PaddedCount(|Split(content)|, innerHeight)
    ensures ls[..|Split(content)|] == Split(content)
    ensures forall i :: |Split(content)| <= i < |ls| ==> ls[i] == ""
  {
    var lines := Split(content);
    lines + seq(PaddedCount(|lines|, innerHeight) - |lines|, _ => "")
  }

  /** The top border; with a title, the title sits right-aligned before "─╮". */
  function TopBorder(title: string, inner: int, textWidth: string -> nat): string
  {
    if title == "" then "╭" + Repeat('─', Max(inner, 0)) + "╮"
    else
      var t := " " + title + " ";
      var dashes := Max(1, inner - textWidth(t) - 1);
      "╭" + Repeat('─', dashes) + t + "─╮"
  }

  function BottomBorder(inner: int): string
  {
    "╰" + Repeat('─', Max(inner, 0)) + "╯"
  }

  /** One content line between the side borders, right-padded with spaces when
      narrower than the inner width; a wider line is kept whole. */
  function Framed(l: string, inner: int, textWidth: string -> nat): string
  {
    var rpad := if textWidth(l) < inner then Repeat(' ', inner - textWidth(l)) else "";
    "│" + l + rpad + "│"
  }

  /** The lines of the panel, top to bottom. */
  function PanelLines(title: string, content: string, width: int, innerHeight: int,
                      textWidth: string -> nat): (all: seq<string>)
  {
    var inner := width - 2;
    var ls := ContentLines(content, innerHeight);
    [TopBorder(title, inner, textWidth)]
      + seq(|ls|, i requires 0 <= i < |ls| => Framed(ls[i], inner, textWidth))
      + [BottomBorder(inner)]
  }

  /** RenderTitledPanel. strings.Repeat panics on a negative count, so the
      width must leave room for the two side borders. */
  method RenderTitledPanel(title: string, content: string, width: int, innerHeight: int,
                           textWidth: string -> nat) returns (out: string)
    requires width >= 2
    ensures out == Join(PanelLines(title, content, width, innerHeight, textWidth))
  {
    var inner := width - 2;
    var lines := Split(content);
    ghost var k := |lines|;

    while innerHeight > 0 && |lines| < innerHeight
      invariant k <= |lines| <= PaddedCount(k, innerHeight)
      invariant lines[..k] == Split(content)
      invariant forall i :: k <= i < |lines| ==> lines[i] == ""
      decreases innerHeight - |lines|
    {
      lines := lines + [""];
    }
    assert lines == ContentLines(content, innerHeight);

    var top: string;
    if title == "" {
      top := "╭" + Repeat('─', inner) + "╮";
    } else {
      var t := " " + title + " ";
      var tw := textWidth(t);
      var dashes := inner - tw - 1;
      if dashes < 1 {
        dashes := 1;
      }
      top := "╭" + Repeat('─', dashes) + t + "─╮";
    }

    var mid: seq<string> := [];
    for i := 0 to |lines|
      invariant |mid| == i
      invariant forall j :: 0 <= j < i ==> mid[j] == Framed(lines[j], inner, textWidth)
    {
      var l := lines[i];
      var lw := textWidth(l);
      var rpad := "";
      if lw < inner {
        rpad := Repeat(' ', inner - lw);
      }
      mid := mid + ["│" + l + rpad + "│"];
    }

    var bot := "╰" + Repeat('─', inner) + "╯";
    assert top == TopBorder(title, inner, textWidth);
    assert mid == seq(|lines|, i requires 0 <= i < |lines| => Framed(lines[i], inner, textWidth));
    var all := [top] + mid;
    all := all + [bot];
    out := Join(all);
  }

  /** The panel has two border lines around the padded content lines. */
  lemma PanelShape(title: string, content: string, width: int, innerHeight: int, textWidth: string -> nat)
    ensures var all := PanelLines(title, content, width, innerHeight, textWidth);
      && |all| == 2 + PaddedCount(|Split(content)|, innerHeight)
      && all[0] == TopBorder(title, width - 2, textWidth)
      && all[|all| - 1] == BottomBorder(width - 2)
      && forall i :: 0 <= i < |Split(content)| ==> all[1 + i] == Framed(Split(content)[i], width - 2, textWidth)
  {
  }

  /** Rendered with no newline in the title, the panel reads back as exactly
      its lines: 2 + max(k, innerHeight) of them for k content lines, or 2 + k
      when innerHeight is 0. */
  lemma {:induction false} PanelLineCount(title: string, content: string, width: int, innerHeight: int,
                                         textWidth: string -> nat)
    requires '\n' !in title
    ensures var all := PanelLines(title, content, width, innerHeight, textWidth);
      && Split(Join(all)) == all
      && |Split(Join(all))| == 2 + (if innerHeight > 0 then Max(|Split(content)|, innerHeight) else |Split(content)|)
  {
    var inner := width - 2;
    var all := PanelLines(title, content, width, innerHeight, textWidth);
    var ls := ContentLines(content, innerHeight);
    forall i | 0 <= i < |all|
      ensures '\n' !in all[i]
    {
      if i == 0 {
        var top := TopBorder(title, inner, textWidth);
        if title != "" {
          var t := " " + title + " ";
          var dashes := Max(1, inner - textWidth(t) - 1);
          assert top == "╭" + Repeat('─', dashes) + t + "─╮";
        }
      } else if i < |all| - 1 {
        var l := ls[i - 1];
        assert '\n' !in l by {
          if i - 1 < |Split(content)| {
            assert l == Split(content)[i - 1];
          }
        }
        assert all[i] == Framed(l, inner, textWidth);
      }
    }
    SplitJoin(all);
  }

  /** Measured in runes, every framed line is as wide as the inner width plus
      the two borders, unless the content line is wider than the inner width,
      in which case it is kept whole and nothing is cut. */
  lemma FramedWidth(l: string, inner: int)
    ensures |Framed(l, inner, s => |s|)| == 2 + Max(inner, |l|)
    ensures Framed(l, inner, s => |s|)[1..1 + |l|] == l
  {
  }

  /** Measured in runes, the top border is exactly as wide as the bottom one
      when there is no title, or when the title leaves room for a dash. */
  lemma TopBorderWidth(title: string, inner: nat)
    requires title == "" || |title| + 4 <= inner
    ensures |TopBorder(title, inner, s => |s|)| == |BottomBorder(inner)| == inner + 2
  {
  }
}
