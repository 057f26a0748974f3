/** The key-sequence easter egg: a `keydown` listener keeps the last ten key codes in
    `konamiCode` and compares their comma-joined text with that of a fixed pattern. */
module Konami {
  import opened JsText

  const Window: nat := 10
  const KonamiPattern: seq<nat> := [38, 38, 40, 40, 37, 39, 37, 39, 66, 65]

  /** `a.slice(-n)` for a positive `n`: the last `n` elements, or all of `a` when it is shorter. */
  function SliceLast<T>(a: seq<T>, n: nat): (r: seq<T>)
    requires n > 0
    ensures |r| == Min(n, |a|)
    ensures r == a[|a| - |r|..]
  {
    if |a| <= n then a else a[|a| - n..]
  }

  /** Keeping a window and then pushing is the same as pushing onto the whole history and then
      keeping the window: the window never loses a key it should keep. */
  lemma SliceLastPush<T>(t: seq<T>, k: T, n: nat)
    requires n > 0
    ensures SliceLast(SliceLast(t, n) + [k], n) == SliceLast(t + [k], n)
  {
    var w := SliceLast(t, n);
    var full := t + [k];
    var r := SliceLast(w + [k], n);
    var e := SliceLast(full, n);
    assert |r| == |e|;
    forall i | 0 <= i < |r| ensures r[i] == e[i] {
      if i == |r| - 1 {
        assert r[i] == k && e[i] == k;
      } else {
        assert r[i] == (w + [k])[|w + [k]| - |r| + i];
        assert e[i] == full[|full| - |e| + i];
      }
    }
  }

  /** The decimal text of a number, as `Number.prototype.toString` writes a non-negative
      integer. */
  function Decimal(n: nat): (s: string)
    ensures |s| >= 1
    ensures (|s| == 1) <==> n < 10
    ensures forall i :: 0 <= i < |s| ==> '0' <= s[i] <= '9'
  {
    if n < 10 then [Digit(n)] else Decimal(n / 10) + [Digit(n % 10)]
  }

  function Digit(d: nat): (c: char)
    requires d < 10
    ensures '0' <= c <= '9' && c as int - '0' as int == d
  {
    ('0' as int + d) as char
  }

  /** `a.join(',')`. */
  function Join(a: seq<nat>): (s: string)
    ensures a == [] <==> s == []
  {
    if a == [] then ""
    else if |a| == 1 then Decimal(a[0])
    else Decimal(a[0]) + "," + Join(a[1..])
  }

  /** What follows the first number in `a.join(',')`: nothing, or a comma and the rest. */
  function JoinRest(a: seq<nat>): (t: string)
    requires a != []
    ensures Join(a) == Decimal(a[0]) + t
    ensures (|a| == 1 ==> t == []) && (|a| > 1 ==> t == "," + Join(a[1..]))
  {
    if |a| == 1 then "" else "," + Join(a[1..])
  }

  lemma {:induction false} DecimalInjective(n: nat, m: nat)
    requires Decimal(n) == Decimal(m)
    ensures n == m
  {
    if n >= 10 && m >= 10 {
      var dn, dm := Decimal(n), Decimal(m);
      assert dn[..|dn| - 1] == Decimal(n / 10);
      assert dm[..|dm| - 1] == Decimal(m / 10);
      DecimalInjective(n / 10, m / 10);
      assert Digit(n % 10) == dn[|dn| - 1] == dm[|dm| - 1] == Digit(m % 10);
    } else if n < 10 && m < 10 {
      assert Digit(n) == Decimal(n)[0] == Decimal(m)[0] == Digit(m);
    }
  }

  /** The length of the run of decimal digits that starts `s`. */
  function DigitRun(s: string): (k: nat)
    ensures k <= |s|
  {
    if s != [] && '0' <= s[0] <= '9' then 1 + DigitRun(s[1..]) else 0
  }

  lemma {:induction false} DigitRunOf(d: string, t: string)
    requires forall i :: 0 <= i < |d| ==> '0' <= d[i] <= '9'
    requires t == [] || t[0] == ','
    ensures DigitRun(d + t) == |d|
  {
    if d != [] {
      assert (d + t)[1..] == d[1..] + t;
      DigitRunOf(d[1..], t);
    } else {
      assert d + t == t;
    }
  }

  /** Two decimal numbers followed by texts that are empty or start with a comma are equal
      only piece by piece: a digit never stands where a comma does. */
  lemma SplitAtComma(n: nat, t: string, m: nat, u: string)
    requires t == [] || t[0] == ','
    requires u == [] || u[0] == ','
    requires Decimal(n) + t == Decimal(m) + u
    ensures n == m && t == u
  {
    var dn, dm := Decimal(n), Decimal(m);
    DigitRunOf(dn, t);
    DigitRunOf(dm, u);
    assert dn == (dn + t)[..|dn|] == (dm + u)[..|dm|] == dm;
    DecimalInjective(n, m);
    assert t == (dn + t)[|dn|..] == (dm + u)[|dm|..] == u;
  }

  /** Comparing joined texts, as the listener does, is comparing the key sequences. */
  lemma {:induction false} JoinInjective(a: seq<nat>, b: seq<nat>)
    requires Join(a) == Join(b)
    ensures a == b
  {
    if a != [] && b != [] {
      var t, u := JoinRest(a), JoinRest(b);
      SplitAtComma(a[0], t, b[0], u);
      if |a| > 1 && |b| > 1 {
        assert Join(a[1..]) == t[1..] == u[1..] == Join(b[1..]);
        JoinInjective(a[1..], b[1..]);
        assert a == [a[0]] + a[1..];
        assert b == [b[0]] + b[1..];
      } else if |a| == 1 && |b| == 1 {
        assert a == [a[0]] && b == [b[0]];
      }
    }
  }

  /** The state of the top-level `keydown` listener. */
  class KonamiListener {
    var konamiCode: seq<nat>
    /** Every key code seen so far; not part of the page's state. */
    ghost var typed: seq<nat>

    ghost predicate Valid()
      reads this
    {
      konamiCode == SliceLast(typed, Window)
    }

    constructor ()
      ensures Valid() && typed == [] && konamiCode == []
    {
      konamiCode := [];
      typed := [];
    }

    /** One key press. `activated` says whether `activateMatrixMode` is called. */
    method KeyDown(keyCode: nat) returns (activated: bool)
      requires Valid()
      modifies this
      ensures Valid() && typed == old(typed) + [keyCode]
      ensures konamiCode == SliceLast(old(konamiCode) + [keyCode], Window)
      ensures |konamiCode| <= Window
      ensures activated <==> Join(konamiCode) == Join(KonamiPattern)
      ensures activated <==> |typed| >= Window && typed[|typed| - Window..] == KonamiPattern
    {
      konamiCode := konamiCode + [keyCode];
      konamiCode := SliceLast(konamiCode, Window);
      SliceLastPush(typed, keyCode, Window);
      typed := typed + [keyCode];
      activated := Join(konamiCode) == Join(KonamiPattern);
      if activated {
        JoinInjective(konamiCode, KonamiPattern);
      }
    }
  }

  /** The buffer after the listener has seen `keys`, starting from an empty one, computed key
      by key as the listener does. */
  function Listen(keys: seq<nat>): (buffer: seq<nat>)
  {
    if keys == [] then [] else SliceLast(Listen(keys[..|keys| - 1]) + [keys[|keys| - 1]], Window)
  }

  /** However many keys were pressed, the buffer holds at most ten of them, and exactly the
      last `min(10, n)` keys typed. */
  lemma {:induction false} ListenKeepsLastKeys(keys: seq<nat>)
    ensures Listen(keys) == SliceLast(keys, Window)
    ensures |Listen(keys)| == Min(Window, |keys|) <= Window
  {
    if keys != [] {
      var init, last := keys[..|keys| - 1], keys[|keys| - 1];
      assert keys == init + [last];
      assert Listen(keys) == SliceLast(Listen(init) + [last], Window);
      ListenKeepsLastKeys(init);
      SliceLastPush(init, last, Window);
    }
  }

  /** After the keys `keys`, the listener's comparison of joined texts succeeds exactly when the
      last ten keys typed are the pattern. */
  lemma ActivatesIffPatternTyped(keys: seq<nat>)
    ensures Join(Listen(keys)) == Join(KonamiPattern) <==>
              |keys| >= Window && keys[|keys| - Window..] == KonamiPattern
  {
    ListenKeepsLastKeys(keys);
    if Join(Listen(keys)) == Join(KonamiPattern) {
      JoinInjective(Listen(keys), KonamiPattern);
    }
  }

  /** Typing the pattern triggers the easter egg whatever came before it. */
  lemma PatternTriggersAfterAnyPrefix(before: seq<nat>)
    ensures SliceLast(before + KonamiPattern, Window) == KonamiPattern
  {
    var s := before + KonamiPattern;
    assert s[|s| - Window..] == KonamiPattern;
  }
}
