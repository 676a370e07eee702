/** The data files a push touches: file names under the data path that end
    in ".json", gathered into JavaScript Sets kept in insertion order. */
module DataFiles {
  import opened Text
  import opened Json

  const JsonSuffix := ".json"

  /** A data file: under the data path and ending in ".json". */
  predicate IsDataFile(f: string, dataPath: string) {
    StartsWith(f, dataPath) && EndsWith(f, JsonSuffix)
  }

  /** `fs.forEach(f => isData(f) && s.add(f))`: the data files of fs added
      to s in order. */
  function AddData(s: seq<string>, fs: seq<string>, dataPath: string): (r: seq<string>)
  {
    if fs == [] then s
    else
      var r := AddData(s, fs[..|fs| - 1], dataPath);
      if IsDataFile(fs[|fs| - 1], dataPath) then AddToSet(r, fs[|fs| - 1]) else r
  }

  /** The result keeps s as it was, free of repeats, and holds exactly s
      and the data files of fs. */
  lemma {:induction false} AddDataMembers(s: seq<string>, fs: seq<string>, dataPath: string)
    requires Distinct(s)
    ensures Distinct(AddData(s, fs, dataPath))
    ensures forall x :: x in AddData(s, fs, dataPath) <==> x in s || (x in fs && IsDataFile(x, dataPath))
  {
    if fs != [] {
      var init := fs[..|fs| - 1];
      AddDataMembers(s, init, dataPath);
      assert forall x :: x in fs <==> x in init || x == fs[|fs| - 1];
    }
  }

  /** The loop that `AddData` describes. */
  method AddDataFiles(s: seq<string>, fs: seq<string>, dataPath: string) returns (r: seq<string>)
    requires Distinct(s)
    ensures r == AddData(s, fs, dataPath)
    ensures Distinct(r)
    ensures forall x :: x in r <==> x in s || (x in fs && IsDataFile(x, dataPath))
  {
    r := s;
    for i := 0 to |fs|
      invariant r == AddData(s, fs[..i], dataPath)
    {
      assert fs[..i + 1][..i] == fs[..i];
      if IsDataFile(fs[i], dataPath) {
        r := AddToSet(r, fs[i]);
      }
    }
    assert fs[..|fs|] == fs;
    AddDataMembers(s, fs, dataPath);
  }
}
