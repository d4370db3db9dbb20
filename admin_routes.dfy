/** The upload check of the admin question upload page. */
module AdminRoutes {
  import opened Wrappers
  import opened Text

  /** `ALLOWED_EXTENSIONS`. */
  const AllowedExtensions: set<string> := {"csv"}

  /** `filename.rsplit(".", 1)[1]`: what follows the last dot, or `None` when there is no dot
      (where `[1]` would be out of range, which the `"." in filename` test rules out first). */
  function AfterLastDot(s: string): (r: Option<string>)
    decreases |s|
  {
    if |s| == 0 then None
    else if s[|s| - 1] == '.' then Some("")
    else match AfterLastDot(s[..|s| - 1])
      case None => None
      case Some(t) => Some(t + [s[|s| - 1]])
  }

  /** There is a dot exactly when the split finds one, and the piece it returns follows a dot
      and holds none. */
  lemma {:induction false} AfterLastDotSpec(s: string)
    ensures AfterLastDot(s).None? <==> !ContainsChar(s, '.')
    ensures AfterLastDot(s).Some? ==>
      var t := AfterLastDot(s).value;
      |t| < |s| && s[|s| - |t| - 1] == '.' && t == s[|s| - |t|..] && !ContainsChar(t, '.')
    decreases |s|
  {
    if |s| > 0 && s[|s| - 1] != '.' {
      var init := s[..|s| - 1];
      AfterLastDotSpec(init);
      assert forall i :: 0 <= i < |init| ==> init[i] == s[i];
      if AfterLastDot(init).Some? {
        var t := AfterLastDot(init).value;
        var t' := t + [s[|s| - 1]];
        assert init[|init| - |t|..] == s[|s| - |t'|..|s| - 1];
        assert t' == s[|s| - |t'|..];
        assert !ContainsChar(t', '.') by {
          forall i | 0 <= i < |t'| ensures t'[i] != '.' {
            if i < |t| { assert t'[i] == t[i]; }
          }
        }
      } else {
        assert !ContainsChar(s, '.') by {
          forall i | 0 <= i < |s| ensures s[i] != '.' {
            if i < |init| { assert s[i] == init[i]; }
          }
        }
      }
    } else if |s| > 0 {
      assert s[|s| - 1] == '.';
    }
  }

  /** `allowed_file`: the name has a dot and its last extension, lower-cased, is `csv`. */
  function AllowedFile(filename: string): (ok: bool)
  {
    ContainsChar(filename, '.') && AfterLastDot(filename).Some?
    && Lower(AfterLastDot(filename).value) in AllowedExtensions
  }

  /** A name is accepted exactly when it ends in a dot followed by `csv` in any letter case: the
      extension is what follows the last dot. */
  lemma AllowedFileSpec(filename: string)
    ensures AllowedFile(filename) <==>
      |filename| >= 4 && filename[|filename| - 4] == '.' && Lower(filename[|filename| - 3..]) == "csv"
  {
    AfterLastDotSpec(filename);
    var n := |filename|;
    if n >= 4 && filename[n - 4] == '.' && Lower(filename[n - 3..]) == "csv" {
      var t := filename[n - 3..];
      assert !ContainsChar(t, '.') by {
        forall i | 0 <= i < 3 ensures t[i] != '.' {
          assert Lower(t)[i] == LowerChar(t[i]);
        }
      }
      assert ContainsChar(filename, '.') by { assert filename[n - 4] == '.'; }
      var r := AfterLastDot(filename).value;
      assert |r| == 3;
      assert r == t;
    }
  }

  /** Any name with a dot followed by `csv` or `CSV` is accepted, and a name without a dot is not. */
  lemma AllowedFileExamples(stem: string)
    ensures AllowedFile(stem + ".csv") && AllowedFile(stem + ".CSV")
    ensures !ContainsChar(stem, '.') ==> !AllowedFile(stem)
  {
    AllowedFileSpec(stem + ".csv");
    AllowedFileSpec(stem + ".CSV");
    assert (stem + ".csv")[|stem| + 1..] == "csv";
    assert (stem + ".CSV")[|stem| + 1..] == "CSV";
    assert Lower("CSV") == "csv";
  }
}
