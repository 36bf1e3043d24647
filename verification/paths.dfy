/** The part of `os.path` the organizer relies on once a path has been reduced
    to its basename: `str.rfind` and `os.path.splitext`. */
module Paths {
  import opened Strings

  /** The last index below k holding c, or -1. */
  function LastBefore(s: string, c: char, k: nat): (r: int)
    requires k <= |s|
    ensures -1 <= r < k
    ensures 0 <= r ==> s[r] == c
    ensures forall j :: r < j < k ==> s[j] != c
    decreases k
  {
    if k == 0 then -1
    else if s[k - 1] == c then k - 1
    else LastBefore(s, c, k - 1)
  }

  /** `s.rfind(c)`: the index of the last occurrence of c, or -1. */
  function RFind(s: string, c: char): (r: int)
    ensures -1 <= r < |s|
    ensures r == -1 <==> c !in s
    ensures 0 <= r ==> s[r] == c && c !in s[r + 1..]
  {
    LastBefore(s, c, |s|)
  }

  /** Every occurrence of c lies at or before the index rfind reports. */
  lemma RFindIsLast(s: string, c: char, k: nat)
    requires k < |s| && s[k] == c
    ensures k <= RFind(s, c)
  {
  }

  /** An occurrence with no later occurrence is the one rfind reports. */
  lemma RFindAt(s: string, c: char, k: nat)
    requires k < |s| && s[k] == c && c !in s[k + 1..]
    ensures RFind(s, c) == k
  {
    RFindIsLast(s, c, k);
  }

  predicate AllDots(s: string) {
    forall i :: 0 <= i < |s| ==> s[i] == '.'
  }

  /** A basename split into the part before its extension and the extension. */
  datatype Split = Split(stem: string, ext: string)

  /** The test splitext applies: the last dot has some character other than
      '.' in front of it. */
  predicate HasExtension(name: string) {
    var dot := RFind(name, '.');
    dot > 0 && !AllDots(name[..dot])
  }

  /** splitext's test holds exactly when some non-dot character is followed,
      somewhere later, by a dot. */
  lemma HasExtensionIff(name: string)
    ensures HasExtension(name) <==> exists j :: 0 <= j < |name| && name[j] != '.' && '.' in name[j + 1..]
  {
    var dot := RFind(name, '.');
    forall j | 0 <= j < |name| && name[j] != '.' && '.' in name[j + 1..]
      ensures HasExtension(name)
    {
      var tail := name[j + 1..];
      var i :| 0 <= i < |tail| && tail[i] == '.';
      RFindIsLast(name, '.', j + 1 + i);
      assert name[..dot][j] == name[j];
    }
    if HasExtension(name) {
      var j :| 0 <= j < dot && name[..dot][j] != '.';
      assert name[j + 1..][dot - j - 1] == '.';
    }
  }

  /** `os.path.splitext` on a basename (a name with no separator). The
      extension runs from the last '.' to the end, provided some character
      other than '.' comes before that dot: leading dots belong to the stem,
      so ".bashrc" and "..x" have no extension while "a." has the extension ".". */
  function SplitExt(name: string): (r: Split)
    ensures r.stem + r.ext == name
    ensures r.ext == [] || (r.ext[0] == '.' && '.' !in r.ext[1..])
    ensures r.ext != [] <==> exists j :: 0 <= j < |name| && name[j] != '.' && '.' in name[j + 1..]
    ensures r.ext != [] ==> r.stem != []
  {
    HasExtensionIff(name);
    var dot := RFind(name, '.');
    if HasExtension(name) then
      assert name[dot..][1..] == name[dot + 1..];
      Split(name[..dot], name[dot..])
    else
      Split(name, [])
  }

  /** For a name that does not start with '.', the extension is present exactly
      when the name contains a dot, and then it starts at the last dot. */
  lemma SplitExtOfVisibleName(name: string)
    requires name != [] && name[0] != '.'
    ensures SplitExt(name).ext != [] <==> '.' in name
    ensures '.' in name ==> SplitExt(name).ext == name[RFind(name, '.')..]
  {
    var dot := RFind(name, '.');
    if '.' in name {
      assert dot > 0;
      assert name[..dot][0] == name[0];
    }
  }

  /** For a name that does not start with a dot, the extension runs from the
      last dot to the end. */
  lemma ExtAtLastDot(name: string, k: nat)
    requires name != [] && name[0] != '.'
    requires k < |name| && name[k] == '.' && '.' !in name[k + 1..]
    ensures SplitExt(name).ext == name[k..]
  {
    RFindAt(name, '.', k);
    SplitExtOfVisibleName(name);
  }

  /** A name made of a stem that does not start with a dot, a dot, and a
      dot-free suffix has that dot and suffix as its extension. */
  lemma ExtOfStemDotSuffix(stem: string, suffix: string)
    requires stem != [] && stem[0] != '.' && '.' !in suffix
    ensures SplitExt(stem + "." + suffix).ext == "." + suffix
  {
    var name := stem + "." + suffix;
    assert name[|stem|] == '.' && name[|stem| + 1..] == suffix;
    ExtAtLastDot(name, |stem|);
    assert name[|stem|..] == "." + suffix;
  }

  /** splitext only looks at where the dots are, and lowering keeps them. */
  lemma RFindDotOfLower(s: string)
    ensures RFind(ToLower(s), '.') == RFind(s, '.')
  {
    var t := ToLower(s);
    forall i | 0 <= i < |s|
      ensures t[i] == '.' <==> s[i] == '.'
    {
      ToLowerKeepsNonLetter(s, '.', i);
    }
    var a, b := RFind(s, '.'), RFind(t, '.');
    if a == -1 {
      assert forall i :: 0 <= i < |t| ==> t[i] != '.';
    } else {
      RFindIsLast(t, '.', a);
      RFindIsLast(s, '.', b);
    }
  }

  /** Lowering keeps a single dot-suffix a single dot-suffix. */
  lemma LoweredDotSuffix(ext: string)
    requires ext == [] || (ext[0] == '.' && '.' !in ext[1..])
    ensures var r := ToLower(ext); r == [] || (r[0] == '.' && '.' !in r[1..])
  {
    if ext != [] {
      var r := ToLower(ext);
      ToLowerKeepsNonLetter(ext, '.', 0);
      forall i | 0 <= i < |ext| - 1
        ensures r[1..][i] != '.'
      {
        ToLowerKeepsNonLetter(ext, '.', i + 1);
        assert ext[1..][i] == ext[i + 1];
      }
    }
  }

  /** The extension of a lowered name is the lowered extension. */
  lemma SplitExtOfLower(name: string)
    ensures SplitExt(ToLower(name)).ext == ToLower(SplitExt(name).ext)
  {
    var low := ToLower(name);
    RFindDotOfLower(name);
    var dot := RFind(name, '.');
    if dot > 0 {
      forall i | 0 <= i < dot
        ensures low[..dot][i] == '.' <==> name[..dot][i] == '.'
      {
        ToLowerKeepsNonLetter(name, '.', i);
      }
      assert AllDots(low[..dot]) <==> AllDots(name[..dot]);
      ToLowerSuffix(name, dot);
    }
  }
}
