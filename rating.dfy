/**
 * The rating classifier: maps one row's RSI and momentum/volatility ratio to
 * a grade, and each grade to its label, description and display colour.
 * RSI below 30 is the oversold band, above 70 the overbought band, and
 * 30..70 inclusive the normal band; inside each band the ratio decides.
 */
module Rating {
  import opened Common

  datatype Grade =
    | InsufficientData
    | EPlus        // oversold, momentum already positive
    | E            // oversold, decline slowing
    | EMinus       // oversold, still grinding down
    | EMinusMinus  // oversold, falling sharply
    | C            // overbought, very strong trend
    | B            // overbought, high risk
    | S            // normal band, strong steady rise
    | A            // normal band, healthy rise
    | D            // normal band, consolidating
    | DMinus       // normal band, negative momentum

  const Oversold: real := 30.0
  const Overbought: real := 70.0

  const Gray := "#808080"
  const Purple := "#9370DB"
  const DodgerBlue := "#1E90FF"
  const Orange := "#FFA500"
  const DarkRed := "#8B0000"
  const Red := "#FF4444"
  const Green := "#00CC00"
  const LightGreen := "#90EE90"
  const LightGray := "#D3D3D3"

  /**
   * The first-match-wins cascade. Its contract is the decision table read
   * band by band: each grade holds exactly on its own rectangle of
   * (RSI, ratio), with the closed ends of every interval written out.
   */
  function Classify(rsi: Option<real>, ratio: Option<real>): (g: Grade)
    ensures g == InsufficientData <==> rsi.None? || ratio.None?
    ensures g == EPlus <==>
      rsi.Some? && ratio.Some? && rsi.value < 30.0 && 0.0 < ratio.value
    ensures g == E <==>
      rsi.Some? && ratio.Some? && rsi.value < 30.0 && -0.2 < ratio.value <= 0.0
    ensures g == EMinus <==>
      rsi.Some? && ratio.Some? && rsi.value < 30.0 && -0.5 < ratio.value <= -0.2
    ensures g == EMinusMinus <==>
      rsi.Some? && ratio.Some? && rsi.value < 30.0 && ratio.value <= -0.5
    ensures g == C <==>
      rsi.Some? && ratio.Some? && 70.0 < rsi.value && 1.0 < ratio.value
    ensures g == B <==>
      rsi.Some? && ratio.Some? && 70.0 < rsi.value && ratio.value <= 1.0
    ensures g == S <==>
      rsi.Some? && ratio.Some? && 30.0 <= rsi.value <= 70.0 && 1.0 < ratio.value
    ensures g == A <==>
      rsi.Some? && ratio.Some? && 30.0 <= rsi.value <= 70.0 && 0.5 < ratio.value <= 1.0
    ensures g == D <==>
      rsi.Some? && ratio.Some? && 30.0 <= rsi.value <= 70.0 && 0.0 < ratio.value <= 0.5
    ensures g == DMinus <==>
      rsi.Some? && ratio.Some? && 30.0 <= rsi.value <= 70.0 && ratio.value <= 0.0
  {
    if rsi.None? || ratio.None? then InsufficientData
    else
      var r, m := rsi.value, ratio.value;
      if r < Oversold then
        if m > 0.0 then EPlus
        else if m > -0.2 then E
        else if m > -0.5 then EMinus
        else EMinusMinus
      else if r > Overbought then
        if m > 1.0 then C else B
      else if m > 1.0 then S
      else if m > 0.5 then A
      else if m > 0.0 then D
      else DMinus
  }

  /** The (label, description, colour) triple shown for a grade. */
  function Display(g: Grade): (r: (string, string, string))
    ensures r.0 == "数据不足" <==> g == InsufficientData
    ensures r.2 == Gray <==> g == InsufficientData || g == D
    ensures r.2 == Orange <==> g == EMinus || g == C
  {
    match g
    case InsufficientData => ("数据不足", "数据尚不充分", Gray)
    case EPlus => ("E+ (黄金坑)", "超卖且动能已转正，极佳抄底点", Purple)
    case E => ("E (企稳观察)", "超卖且跌势放缓，可小仓试错", DodgerBlue)
    case EMinus => ("E- (阴跌中)", "超卖但仍在持续阴跌，谨慎观望", Orange)
    case EMinusMinus => ("E-- (接飞刀)", "超卖且剧烈暴跌，切勿伸手！", DarkRed)
    case C => ("C (疯狂逼空)", "超买但走势极强，可能继续疯涨", Orange)
    case B => ("B (高风险)", "超买且波动剧烈，警惕诱多/回调", Red)
    case S => ("S (完美主升)", "低波稳健大涨，最佳持有状态", Green)
    case A => ("A (稳健上涨)", "趋势健康，安心持有", LightGreen)
    case D => ("D (震荡整理)", "上涨乏力或波动过大，观望", Gray)
    case DMinus => ("D- (弱势调整)", "负动量，趋势向下", LightGray)
  }

  /** The triple `calculate_rating` returns for one row. */
  function CalculateRating(rsi: Option<real>, ratio: Option<real>): (r: (string, string, string))
    ensures rsi.None? || ratio.None? ==> r == ("数据不足", "数据尚不充分", "#808080")
    ensures rsi.Some? && ratio.Some? ==> r.0 != "数据不足"
  {
    Display(Classify(rsi, ratio))
  }

  /** RSI exactly on 30 or 70 belongs to the normal band. */
  lemma BandEdgesAreNormal(m: real)
    ensures Classify(Some(30.0), Some(m)) == Classify(Some(50.0), Some(m))
    ensures Classify(Some(70.0), Some(m)) == Classify(Some(50.0), Some(m))
    ensures Classify(Some(70.0), Some(1.2)) == S
  {
  }

  /** A ratio exactly on a breakpoint falls to the lower branch. */
  lemma BreakpointsFallLow()
    ensures Classify(Some(25.0), Some(0.0)) == E
    ensures Classify(Some(25.0), Some(-0.2)) == EMinus
    ensures Classify(Some(25.0), Some(-0.5)) == EMinusMinus
    ensures Classify(Some(75.0), Some(1.0)) == B
    ensures Classify(Some(50.0), Some(1.0)) == A
    ensures Classify(Some(50.0), Some(0.5)) == D
    ensures Classify(Some(50.0), Some(0.0)) == DMinus
  {
  }

  /** One point inside each graded rectangle. */
  lemma DecisionTableExamples()
    ensures Classify(Some(25.0), Some(0.1)) == EPlus
    ensures Classify(Some(25.0), Some(-0.1)) == E
    ensures Classify(Some(25.0), Some(-0.3)) == EMinus
    ensures Classify(Some(25.0), Some(-0.6)) == EMinusMinus
    ensures Classify(Some(75.0), Some(1.5)) == C
    ensures Classify(Some(75.0), Some(0.5)) == B
    ensures Classify(Some(50.0), Some(1.2)) == S
    ensures Classify(Some(50.0), Some(0.7)) == A
    ensures Classify(Some(50.0), Some(0.2)) == D
    ensures Classify(Some(50.0), Some(-0.1)) == DMinus
  {
  }

  /** The label text tells the grade apart; the colour does not. */
  lemma LabelIdentifiesGrade(g: Grade, h: Grade)
    ensures Display(g).0 == Display(h).0 <==> g == h
    ensures Display(InsufficientData).2 == Display(D).2
    ensures Display(EMinus).2 == Display(C).2
  {
  }
}
