/** Which inputs a binding names: the strings that routes, selection and cycle gestures are
    written in, taken apart into their words and numbers. */
module Bindings {
  import opened Common
  import opened Contracts

  function DirectionWord(d: Direction): string {
    match d case Up => "up" case Down => "down" case Left => "left" case Right => "right"
  }

  function AreaWord(a: TouchArea): string {
    match a case TopArea => "top" case BottomArea => "bottom" case LeftArea => "left" case RightArea => "right"
  }

  function Digit(d: nat): char
    requires d < 10
  {
    '0' + d as char
  }

  /** A number in decimal, without leading zeros. */
  function Decimal(n: nat): (s: string)
    ensures s != ""
  {
    (if n < 10 then "" else Decimal(n / 10)) + [Digit(n % 10)]
  }

  function Zeros(n: nat): string {
    seq(n, _ => '0')
  }

  /** The number with any number of leading zeros, and a plus sign or none. */
  ghost predicate Spells(t: string, id: nat) {
    exists zeros: nat :: t == Zeros(zeros) + Decimal(id) || t == "+" + (Zeros(zeros) + Decimal(id))
  }

  lemma {:induction false} ParseDecimal(zeros: nat, n: nat)
    ensures ParseDigits(Zeros(zeros) + Decimal(n)) == Some(n)
    decreases n, zeros
  {
    var s := Zeros(zeros) + Decimal(n);
    if n >= 10 {
      ParseDecimal(zeros, n / 10);
      assert s[..|s| - 1] == Zeros(zeros) + Decimal(n / 10);
    } else {
      assert s[..|s| - 1] == Zeros(zeros);
      ParseZeros(zeros);
    }
  }

  lemma {:induction false} ParseZeros(n: nat)
    ensures ParseDigits(Zeros(n)) == Some(0)
    decreases n
  {
    if n == 0 {
    } else {
      ParseZeros(n - 1);
      assert Zeros(n)[..n - 1] == Zeros(n - 1);
    }
  }

  lemma LastDigit(v: nat, d: nat)
    requires d < 10
    ensures (10 * v + d) / 10 == v && (10 * v + d) % 10 == d
    ensures Decimal(10 * v + d) == (if v == 0 then "" else Decimal(v)) + [Digit(d)]
  {
  }

  lemma OneMoreZero(zeros: nat)
    ensures Zeros(zeros) + Decimal(0) == Zeros(zeros + 1)
  {
    assert Decimal(0) == "0";
  }

  lemma {:induction false} ParsedSpells(t: string, n: nat) returns (zeros: nat)
    requires t != "" && ParseDigits(t) == Some(n)
    ensures t == Zeros(zeros) + Decimal(n)
    decreases |t|
  {
    hide Decimal;
    var high, c := t[..|t| - 1], t[|t| - 1];
    var v, d := ParseDigits(high).value, c as int - '0' as int;
    assert t == high + [Digit(d)];
    LastDigit(v, d);
    hide ParseDigits, Digit;
    if high == "" {
      assert v == 0 by {
        ParseZeros(0);
        assert Zeros(0) == "";
      }
      zeros := 0;
    } else {
      zeros := ParsedSpells(high, v);
      Associative(Zeros(zeros), Decimal(v), [Digit(d)]);
      if v == 0 {
        OneMoreZero(zeros);
        zeros := zeros + 1;
      }
    }
  }

  lemma {:induction false} NoPlus(t: string)
    requires t != "" && t[0] == '+'
    ensures ParseDigits(t).None?
    decreases |t|
  {
    if |t| == 1 {
    } else {
      NoPlus(t[..|t| - 1]);
    }
  }

  lemma SpelledStart(zeros: nat, n: nat)
    ensures (Zeros(zeros) + Decimal(n))[0] != '+'
  {
    ParseDecimal(zeros, n);
    if (Zeros(zeros) + Decimal(n))[0] == '+' {
      NoPlus(Zeros(zeros) + Decimal(n));
    }
  }

  /** A button number is read exactly if it is spelled that way. */
  lemma ParseU8Exactly(t: string, id: U8)
    ensures ParseU8(t) == Some(id) <==> Spells(t, id)
  {
    if ParseU8(t) == Some(id) {
      if |t| > 1 && t[0] == '+' {
        var zeros := ParsedSpells(t[1..], id);
        assert t == "+" + t[1..];
      } else {
        var zeros := ParsedSpells(t, id);
      }
    }
    if Spells(t, id) {
      var zeros: nat :| t == Zeros(zeros) + Decimal(id) || t == "+" + (Zeros(zeros) + Decimal(id));
      ParseDecimal(zeros, id);
      SpelledStart(zeros, id);
      assert t != Zeros(zeros) + Decimal(id) ==> t[1..] == Zeros(zeros) + Decimal(id);
    }
  }

  /** Exactly the inputs a binding names: the plain ones by their name, swipes, touches, long
      touches and flights by direction or area, buttons by any spelling of their number; a fly
      up or down and a key press by nothing. */
  lemma MatchesExactly(input: InputPrimitive, s: string)
    ensures input.MatchesRoute(s) <==>
            match input
            case Rotate(_) => s == "rotate"
            case Press => s == "press"
            case Release => s == "release"
            case LongPress => s == "long_press"
            case Slide(_) => s == "slide"
            case Hover(_) => s == "hover"
            case Swipe(d) => s == "swipe_" + DirectionWord(d)
            case Touch(a) => s == "touch_" + AreaWord(a)
            case LongTouch(a) => s == "long_touch_" + AreaWord(a)
            case Fly(d) => (d == Left || d == Right) && s == "fly_" + DirectionWord(d)
            case Button(id) => exists t :: s == "button_" + t && Spells(t, id)
            case KeyPress(_) => false
  {
    match input
    case Swipe(d) => SwipeWord(d);
    case Touch(a) => TouchWord(a);
    case LongTouch(a) => LongTouchWord(a);
    case Fly(d) => FlyWord(d);
    case Button(id) => ButtonNumber(id, s);
    case _ =>
  }

  lemma SwipeWord(d: Direction)
    ensures "swipe_" + DirectionWord(d) ==
            match d case Up => "swipe_up" case Down => "swipe_down" case Left => "swipe_left" case Right => "swipe_right"
  {
  }

  lemma TouchWord(a: TouchArea)
    ensures "touch_" + AreaWord(a) ==
            match a case TopArea => "touch_top" case BottomArea => "touch_bottom" case LeftArea => "touch_left" case RightArea => "touch_right"
  {
  }

  lemma LongTouchWord(a: TouchArea)
    ensures "long_touch_" + AreaWord(a) ==
            match a case TopArea => "long_touch_top" case BottomArea => "long_touch_bottom"
            case LeftArea => "long_touch_left" case RightArea => "long_touch_right"
  {
  }

  lemma FlyWord(d: Direction)
    ensures d == Left ==> "fly_" + DirectionWord(d) == "fly_left"
    ensures d == Right ==> "fly_" + DirectionWord(d) == "fly_right"
  {
  }

  lemma ButtonNumber(id: U8, s: string)
    ensures Button(id).MatchesRoute(s) <==> exists t :: s == "button_" + t && Spells(t, id)
  {
    hide Spells, ParseU8;
    if |s| >= 7 && s[..7] == "button_" {
      ParseU8Exactly(s[7..], id);
      assert s == "button_" + s[7..];
      forall t | s == "button_" + t ensures t == s[7..] {
      }
    }
  }
}
