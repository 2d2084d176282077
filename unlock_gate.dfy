/** The unlock gate of the lock screen: every grid click appends the cell's
    colour to the pending input; once the input holds as many colours as the
    secret code it is compared with the code and cleared, match or not. */
module UnlockGate {
  import opened Palette

  /** `Array.prototype.join()` with its default separator ",": the joined
      string starts with the first token, followed by a separator when more
      tokens come. */
  function Join(s: seq<string>): (r: string)
    ensures |s| > 0 ==> |s[0]| <= |r| && r[..|s[0]|] == s[0]
    ensures |s| > 1 ==> |s[0]| < |r| && r[|s[0]|] == ','
  {
    if |s| == 0 then ""
    else if |s| == 1 then s[0]
    else s[0] + "," + Join(s[1..])
  }

  /** A comma-free token shorter than another cannot be followed by a comma
      at the same position. */
  lemma CommaMismatch(x: string, s: string, y: string, t: string)
    requires NoComma(y) && |x| < |y|
    ensures x + "," + s != y + "," + t
  {
    assert (x + "," + s)[|x|] == ',';
    assert (y + "," + t)[|x|] == y[|x|];
    assert y[|x|] in y;
  }

  /** Two comma-free tokens followed by a comma can be split apart again. */
  lemma SplitAtComma(x: string, s: string, y: string, t: string)
    requires NoComma(x) && NoComma(y)
    requires x + "," + s == y + "," + t
    ensures x == y && s == t
  {
    if |x| < |y| {
      CommaMismatch(x, s, y, t);
    } else if |y| < |x| {
      CommaMismatch(y, t, x, s);
    } else {
      var l := x + "," + s;
      assert x == l[..|x|] && y == l[..|y|];
      assert s == l[|x| + 1..] && t == l[|y| + 1..];
    }
  }

  /** Joining is injective on comma-free token sequences of equal length, so
      comparing the joined strings compares the sequences element by element. */
  lemma {:induction false} JoinInjective(a: seq<string>, b: seq<string>)
    requires |a| == |b| && AllNoComma(a) && AllNoComma(b)
    ensures Join(a) == Join(b) <==> a == b
  {
    if |a| > 1 && Join(a) == Join(b) {
      SplitAtComma(a[0], Join(a[1..]), b[0], Join(b[1..]));
      JoinInjective(a[1..], b[1..]);
      assert a == [a[0]] + a[1..] && b == [b[0]] + b[1..];
    }
  }

  /** The comparison `input.join() === CODE.join()`: true exactly when the
      pending input equals the code element by element, in order. */
  function CodeMatches(input: seq<string>): (r: bool)
    requires |input| == |CODE| && AllNoComma(input)
    ensures r <==> input == CODE
  {
    InPaletteNoComma(CODE);
    JoinInjective(input, CODE);
    Join(input) == Join(CODE)
  }

  /** The pending input after one click on top of `input`: either the input
      with the colour pushed, or cleared; never as long as the code. */
  function Feed(input: seq<string>, color: string): (r: seq<string>)
    ensures |input| < |CODE| ==> |r| < |CODE|
    ensures r == [] || r == input + [color]
  {
    var pushed := input + [color];
    if |pushed| == |CODE| then [] else pushed
  }

  /** The pending input after the clicks `clicks`, starting from the empty
      input; it is always shorter than the code. */
  function Pending(clicks: seq<string>): (r: seq<string>)
    ensures |r| < |CODE|
  {
    if clicks == [] then []
    else Feed(Pending(clicks[..|clicks| - 1]), clicks[|clicks| - 1])
  }

  /** Whether the last click of `clicks` unlocked the gate. */
  predicate UnlockedBy(clicks: seq<string>)
    requires clicks != []
  {
    var pushed := Pending(clicks[..|clicks| - 1]) + [clicks[|clicks| - 1]];
    |pushed| == |CODE| && pushed == CODE
  }

  /** How the position of the last multiple of four moves by one click. */
  lemma BlockStep(n: nat)
    requires n > 0
    ensures (n - 1) % 4 == 3 ==> n % 4 == 0
    ensures (n - 1) % 4 < 3 ==> n % 4 == (n - 1) % 4 + 1
  {
  }

  /** One click on top of a pending input. */
  lemma PendingStep(init: seq<string>, last: string)
    ensures Pending(init + [last]) == Feed(Pending(init), last)
  {
    assert (init + [last])[..|init|] == init;
  }

  /** The pending input is always the clicks since the last multiple of four:
      it is shorter than the code and cleared every fourth click. */
  lemma {:induction false} PendingIsTail(clicks: seq<string>)
    ensures |clicks| % |CODE| <= |clicks|
    ensures Pending(clicks) == clicks[|clicks| - |clicks| % |CODE|..]
    ensures |Pending(clicks)| < |CODE|
  {
    assert |CODE| == 4;
    if clicks != [] {
      var n := |clicks|;
      var init := clicks[..n - 1];
      PendingIsTail(init);
      BlockStep(n);
      var start := (n - 1) - (n - 1) % 4;
      assert clicks == init + [clicks[n - 1]];
      PendingStep(init, clicks[n - 1]);
      assert init[start..] + [clicks[n - 1]] == clicks[start..];
      if (n - 1) % 4 == 3 {
        assert clicks[n - n % 4..] == [];
      } else {
        assert n - n % 4 == start;
      }
    }
  }

  /** A click unlocks exactly when it completes a block of four clicks (counted
      from the start) whose colours are the code in order. */
  lemma UnlockIff(clicks: seq<string>)
    requires clicks != []
    ensures UnlockedBy(clicks) <==>
      |clicks| % |CODE| == 0 && clicks[|clicks| - |CODE|..] == CODE
  {
    assert |CODE| == 4;
    var n := |clicks|;
    var init := clicks[..n - 1];
    PendingIsTail(init);
    BlockStep(n);
    var r := (n - 1) % 4;
    var pushed := Pending(init) + [clicks[n - 1]];
    assert pushed == clicks[(n - 1) - r..];
    if r == 3 {
      assert n % 4 == 0 && (n - 1) - r == n - 4;
      assert UnlockedBy(clicks) == (clicks[n - 4..] == CODE);
    } else {
      assert n % 4 != 0 && |pushed| < 4;
      assert !UnlockedBy(clicks);
    }
  }

  /** The gate's state: the module-level `input` array. The ghost history of
      clicks is what the pending input is specified against. */
  class Gate {
    var input: seq<string>
    ghost var clicks: seq<string>

    ghost predicate Valid()
      reads this
    {
      input == Pending(clicks) && InPalette(input) && |input| < |CODE|
    }

    constructor ()
      ensures Valid() && input == [] && clicks == []
    {
      input := [];
      clicks := [];
    }

    /** A click on a grid cell of colour `color`; `unlocked` reports whether the
        admin screen is shown. */
    method Click(color: string) returns (unlocked: bool)
      requires Valid() && color in COLORS
      modifies this
      ensures Valid()
      ensures clicks == old(clicks) + [color]
      ensures |old(input)| + 1 == |CODE| ==> input == []
      ensures |old(input)| + 1 < |CODE| ==> input == old(input) + [color]
      ensures unlocked <==> |old(input)| + 1 == |CODE| && old(input) + [color] == CODE
      ensures unlocked <==> |clicks| % |CODE| == 0 && clicks[|clicks| - |CODE|..] == CODE
    {
      assert |CODE| == 4;
      ghost var before := input;
      input := input + [color];
      clicks := clicks + [color];
      assert clicks[..|clicks| - 1] == old(clicks);
      assert Pending(clicks) == Feed(before, color);
      assert InPalette(input);
      UnlockIff(clicks);
      if |input| == |CODE| {
        InPaletteNoComma(input);
        unlocked := CodeMatches(input);
        input := [];
      } else {
        unlocked := false;
      }
    }
  }

  /** Clicking blue, green, red, yellow on a fresh gate unlocks it. */
  method CodeUnlocks() returns (unlocked: bool)
    ensures unlocked
  {
    assert |CODE| == 4;
    var gate := new Gate();
    var u := gate.Click("blue");
    u := gate.Click("green");
    u := gate.Click("red");
    assert gate.input + ["yellow"] == CODE;
    unlocked := gate.Click("yellow");
  }

  /** Clicking blue, green, red, blue on a fresh gate does not unlock it and
      leaves the pending input empty. */
  method MismatchResets() returns (unlocked: bool, pendingAfter: seq<string>)
    ensures !unlocked && pendingAfter == []
  {
    var gate := new Gate();
    var u := gate.Click("blue");
    assert gate.input == ["blue"];
    u := gate.Click("green");
    assert gate.input == ["blue", "green"];
    u := gate.Click("red");
    assert gate.input == ["blue", "green", "red"];
    unlocked := gate.Click("blue");
    assert ["blue", "green", "red", "blue"][3] != CODE[3];
    pendingAfter := gate.input;
  }
}
