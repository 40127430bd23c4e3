/** The keydown listener that reveals the admin button once "admin" has
    been typed: it keeps the last five lowercased keys and clears them on
    a match. */
module AdminShortcut {
  import opened Text

  const Secret := "admin"
  const SecretKeys: seq<string> := ["a", "d", "m", "i", "n"]
  const WindowSize := 5

  /** The listener's state: the `teclas` window and `mostrarAdmin`. */
  datatype Keys = Keys(teclas: seq<string>, shown: bool)

  /** The last `WindowSize` entries of `s`, or all of them if fewer. */
  function Last(s: seq<string>): (r: seq<string>)
    ensures |r| <= WindowSize
  {
    if |s| <= WindowSize then s else s[|s| - WindowSize..]
  }

  /** The window right after a key is pushed and the oldest entry beyond
      five is shifted out. */
  function Pushed(teclas: seq<string>, key: string): (r: seq<string>)
    ensures |r| > 0 && r[|r| - 1] == Lower(key)
    ensures |teclas| <= WindowSize ==> |r| <= WindowSize
  {
    var pushed := teclas + [Lower(key)];
    if |pushed| > WindowSize then pushed[1..] else pushed
  }

  /** One keydown. */
  function Step(s: Keys, key: string): (r: Keys)
    ensures r.shown <==> s.shown || Join(Pushed(s.teclas, key)) == Secret
    ensures r.teclas == [] || r.teclas == Pushed(s.teclas, key)
    ensures r.teclas == [] <==> Join(Pushed(s.teclas, key)) == Secret
    ensures |s.teclas| <= WindowSize ==> |r.teclas| <= WindowSize
  {
    var window := Pushed(s.teclas, key);
    if Join(window) == Secret then Keys([], true) else Keys(window, s.shown)
  }

  /** A sequence of keydowns. */
  function Run(s: Keys, keys: seq<string>): Keys
    decreases |keys|
  {
    if |keys| == 0 then s else Run(Step(s, keys[0]), keys[1..])
  }

  /** Shifting one entry out of a window of at most five keeps exactly the
      last five keys typed. */
  lemma {:induction false} LastOfPushed(history: seq<string>, k: string)
    ensures Last(history + [k]) == (var w := Last(history) + [k]; if |w| > WindowSize then w[1..] else w)
  {
    var h := history + [k];
    if |history| > WindowSize {
      assert h[|h| - WindowSize..] == history[|history| - WindowSize..][1..] + [k];
    }
  }

  /** However the keys are typed, the window never holds more than five. */
  lemma {:induction false} RunBounded(s: Keys, keys: seq<string>)
    requires |s.teclas| <= WindowSize
    ensures |Run(s, keys).teclas| <= WindowSize
    decreases |keys|
  {
    if |keys| > 0 {
      RunBounded(Step(s, keys[0]), keys[1..]);
    }
  }

  predicate EndsWith(w: seq<string>, p: seq<string>) {
    |p| <= |w| && w[|w| - |p|..] == p
  }

  lemma JoinSecretKeys()
    ensures Join(SecretKeys) == Secret
  {
    var k1, k2, k3, k4 := SecretKeys[..1], SecretKeys[..2], SecretKeys[..3], SecretKeys[..4];
    assert k4 == SecretKeys[..4] && k4[..3] == k3 && k3[..2] == k2 && k2[..1] == k1 && k1[..0] == [];
    assert Join(k1) == "a";
    assert Join(k2) == "ad";
    assert Join(k3) == "adm";
    assert Join(k4) == "admi";
  }

  /** Pushing a key onto a window that ends with `p` makes it end with
      `p` followed by that key, and shifting out the oldest entry keeps any
      strictly shorter tail. */
  lemma EndsWithPush(t: seq<string>, x: string, p: seq<string>)
    requires EndsWith(t, p)
    ensures EndsWith(t + [x], p + [x])
  {
    assert (t + [x])[|t + [x]| - |p + [x]|..] == t[|t| - |p|..] + [x];
  }

  lemma EndsWithShift(w: seq<string>, p: seq<string>)
    requires EndsWith(w, p) && |p| < |w|
    ensures EndsWith(w[1..], p)
  {
    assert w[1..][|w[1..]| - |p|..] == w[|w| - |p|..];
  }

  /** Typing the `j`-th letter of the secret after the first `j` extends
      the matched tail by one, unless the button is already shown; the
      fifth letter always shows it. */
  lemma StepExtends(s: Keys, key: string, j: nat)
    requires j < 5 && |s.teclas| <= WindowSize
    requires s.shown || EndsWith(s.teclas, SecretKeys[..j])
    requires Lower(key) == SecretKeys[j]
    ensures |Step(s, key).teclas| <= WindowSize
    ensures Step(s, key).shown || EndsWith(Step(s, key).teclas, SecretKeys[..j + 1])
    ensures j == 4 ==> Step(s, key).shown
  {
    if !s.shown {
      var lowered := Lower(key);
      var pushed := s.teclas + [lowered];
      var tail := SecretKeys[..j + 1];
      assert SecretKeys[..j] + [lowered] == tail;
      EndsWithPush(s.teclas, lowered, SecretKeys[..j]);
      var w := Pushed(s.teclas, key);
      if |pushed| > WindowSize {
        EndsWithShift(pushed, tail);
        assert w == pushed[1..];
      } else {
        assert w == pushed;
      }
      assert EndsWith(w, tail);
      if j == 4 {
        assert tail == SecretKeys;
        assert w == SecretKeys;
        JoinSecretKeys();
      }
    }
  }

  lemma {:induction false} TypingRestShows(s: Keys, keys: seq<string>, j: nat)
    requires j <= 5 && |keys| == 5 - j && |s.teclas| <= WindowSize
    requires forall i :: 0 <= i < |keys| ==> Lower(keys[i]) == SecretKeys[j + i]
    requires j < 5 ==> s.shown || EndsWith(s.teclas, SecretKeys[..j])
    requires j == 5 ==> s.shown
    ensures Run(s, keys).shown
    decreases |keys|
  {
    if j < 5 {
      StepExtends(s, keys[0], j);
      TypingRestShows(Step(s, keys[0]), keys[1..], j + 1);
    }
  }

  /** Typing a, d, m, i, n in either case, whatever came before, leaves the
      admin button shown. */
  lemma TypingAdminShows(s: Keys, keys: seq<string>)
    requires |s.teclas| <= WindowSize
    requires |keys| == 5 && forall i :: 0 <= i < 5 ==> Lower(keys[i]) == SecretKeys[i]
    ensures Run(s, keys).shown
  {
    TypingRestShows(s, keys, 0);
  }

  /** The match is on lowercased keys: "ADMIN" typed with caps lock on
      shows the button too. */
  lemma UpperCaseShows()
    ensures Run(Keys([], false), ["A", "D", "M", "I", "N"]).shown
  {
    TypingAdminShows(Keys([], false), ["A", "D", "M", "I", "N"]);
  }

  /** The `keydown` handler with its closure state `teclas` and the React
      state `mostrarAdmin`. */
  class KeyListener {
    var teclas: seq<string>
    var mostrarAdmin: bool
    /** The lowercased keys typed since the window was last cleared. */
    ghost var sinceReset: seq<string>

    ghost predicate Valid()
      reads this
    {
      teclas == Last(sinceReset)
    }

    constructor ()
      ensures Valid() && teclas == [] && !mostrarAdmin
    {
      teclas := [];
      mostrarAdmin := false;
      sinceReset := [];
    }

    /** `manejarTecla`: push the lowercased key, shift out the oldest past
        five, and on "admin" show the button and clear the window. */
    method Press(key: string)
      requires Valid()
      modifies this
      ensures Valid()
      ensures Keys(teclas, mostrarAdmin) == Step(Keys(old(teclas), old(mostrarAdmin)), key)
      ensures |teclas| <= WindowSize
      ensures mostrarAdmin <==>
                old(mostrarAdmin) || Join(Last(old(sinceReset) + [Lower(key)])) == Secret
      ensures teclas == [] || sinceReset == old(sinceReset) + [Lower(key)]
    {
      LastOfPushed(sinceReset, Lower(key));
      teclas := teclas + [Lower(key)];
      sinceReset := sinceReset + [Lower(key)];
      if |teclas| > WindowSize {
        teclas := teclas[1..];
      }
      if Join(teclas) == Secret {
        mostrarAdmin := true;
        teclas := [];
        sinceReset := [];
      }
    }
  }
}
