/** The names of the temporary files that copies are staged through. */
module TempNames {
  import opened Copier

  const NAME_MAX: nat := 255
  const WRAPPER: nat := 22
  const DOT: bv8 := 46
  const TMP: Name := [46, 116, 109, 112]

  /** A dot, the name cut so that it fits, a dot, sixteen hex digits and the extension. */
  function TempName(base: Name, suffix: Name): Name {
    var kept := if |base| + WRAPPER > NAME_MAX then base[..NAME_MAX - WRAPPER] else base;
    [DOT] + kept + [DOT] + suffix + TMP
  }

  lemma TempNamesFit(base: Name, suffix: Name)
    requires |suffix| == 16
    ensures |TempName(base, suffix)| == if |base| + WRAPPER > NAME_MAX then NAME_MAX else |base| + WRAPPER
  {
  }

  /** Different suffixes give different names. */
  lemma TempNamesDiffer(base: Name, one: Name, other: Name)
    requires |one| == |other| == 16 && one != other
    ensures TempName(base, one) != TempName(base, other)
  {
    var kept := if |base| + WRAPPER > NAME_MAX then base[..NAME_MAX - WRAPPER] else base;
    assert TempName(base, one)[|kept| + 2..|kept| + 18] == one;
    assert TempName(base, other)[|kept| + 2..|kept| + 18] == other;
  }

  /** A temporary name is the destination's own exactly if that is a name of the
      greatest length that begins with 235 dots and ends with the very suffix. */
  lemma TempNameIsTargetExactly(base: Name, suffix: Name)
    requires |suffix| == 16
    ensures TempName(base, suffix) == base <==>
      |base| == NAME_MAX && (forall i :: 0 <= i < 235 ==> base[i] == DOT) && base[235..251] == suffix && base[251..] == TMP
  {
    TempNamesFit(base, suffix);
    if TempName(base, suffix) == base {
      forall i | 0 <= i < 235 ensures base[i] == DOT { DotAt(base, suffix, i); }
      assert base[235..251] == suffix && base[251..] == TMP;
    }
    if |base| == NAME_MAX && (forall i :: 0 <= i < 235 ==> base[i] == DOT) && base[235..251] == suffix && base[251..] == TMP {
      assert base == base[..235] + base[235..251] + base[251..];
      assert base[..235] == [DOT] + base[..233] + [DOT];
    }
  }

  lemma {:induction false} DotAt(base: Name, suffix: Name, i: nat)
    requires |base| == NAME_MAX && |suffix| == 16 && TempName(base, suffix) == base && i < 235
    ensures base[i] == DOT
  {
    if 0 < i {
      DotAt(base, suffix, i - 1);
    }
  }
}
