/**
 * The upload label rule. It is written out three times in the source
 * (src/http/index.js, src/http/routes/release-uploader.js and
 * client/src/components/upload.tsx) and modelled here once.
 *
 * - The version number is the last `_`-piece of the version name, cut at its
 *   first `-`, with every `.` removed.
 * - The label is the file name up to its first `.`, then up to its first `_`.
 * - A file matches when its label has exactly 10 characters and starts with
 *   the version number.
 */
module ReleaseLabel {
  import opened JsStrings

  const LabelLength: nat := 10

  /** `versionName.split('_').pop().split('-').shift().replaceAll('.', '')` */
  function VersionNumber(versionName: string): string
  {
    ReplaceAll(FirstPiece(LastPiece(versionName, '_'), '-'), ".", "")
  }

  /** `originalname.split('.').shift().split('_').shift()` */
  function ReleaseFileName(originalName: string): string
  {
    FirstPiece(FirstPiece(originalName, '.'), '_')
  }

  /** `releaseFileName.length === 10 && releaseFileName.startsWith(versionNumber)` */
  predicate LabelMatches(versionName: string, originalName: string)
  {
    var name := ReleaseFileName(originalName);
    |name| == LabelLength && StartsWith(name, VersionNumber(versionName))
  }

  /** The version number carries none of the three characters used to cut it out. */
  lemma VersionNumberCharacters(versionName: string)
    ensures var n := VersionNumber(versionName); '_' !in n && '-' !in n && '.' !in n
  {
    var last := LastPiece(versionName, '_');
    var first := FirstPiece(last, '-');
    LastPieceIsSuffix(versionName, '_');
    FirstPieceIsPrefix(last, '-');
    assert '_' !in first by {
      assert first == last[..|first|];
    }
    RemoveCharMembership(first, '.', '_');
    RemoveCharMembership(first, '.', '-');
    RemoveCharMembership(first, '.', '.');
  }

  /** The label carries neither `.` nor `_`, and is a prefix of the file name. */
  lemma ReleaseFileNameCharacters(originalName: string)
    ensures var l := ReleaseFileName(originalName);
      '.' !in l && '_' !in l && StartsWith(originalName, l)
  {
    var stem := FirstPiece(originalName, '.');
    FirstPieceIsPrefix(originalName, '.');
    FirstPieceIsPrefix(stem, '_');
    var l := ReleaseFileName(originalName);
    assert l == stem[..|l|];
    assert originalName[..|l|] == stem[..|l|];
  }

  /** A matching label bounds the version number: it has at most 10 characters and is the label's beginning. */
  lemma MatchBoundsVersionNumber(versionName: string, originalName: string)
    requires LabelMatches(versionName, originalName)
    ensures |VersionNumber(versionName)| <= LabelLength
    ensures StartsWith(originalName, VersionNumber(versionName))
  {
    ReleaseFileNameCharacters(originalName);
  }

  /** A version name whose version number is empty accepts every 10-character label. */
  lemma EmptyVersionNumberAcceptsAnyLabel(versionName: string, originalName: string)
    requires VersionNumber(versionName) == ""
    ensures LabelMatches(versionName, originalName) <==> |ReleaseFileName(originalName)| == LabelLength
  {
  }

  /** The version name "10.2.1_2024-06-01-01" yields "2024": its last `_`-piece begins with the date. */
  lemma DateSuffixedVersionNumber()
    ensures VersionNumber("10.2.1_2024-06-01-01") == "2024"
  {
    var date: string := "2024-06-01-01";
    assert '_' !in date by {
      assert forall i :: 0 <= i < |date| ==> date[i] != '_';
    }
    LastPieceOf("10.2.1", date, '_');
    assert "10.2.1" + ['_'] + date == "10.2.1_2024-06-01-01";
    var year: string := "2024";
    assert '-' !in year && '.' !in year by {
      assert forall i :: 0 <= i < |year| ==> year[i] != '-' && year[i] != '.';
    }
    FirstPieceOf(year, "06-01-01", '-');
    assert year + ['-'] + "06-01-01" == date;
    RemoveAbsentChar(year, '.');
  }

  /**
   * Hence the file "1021000001_build.zip" does not match that version name,
   * while "2024000001_build.zip" does.
   */
  lemma DateSuffixedVersionName()
    ensures !LabelMatches("10.2.1_2024-06-01-01", "1021000001_build.zip")
    ensures LabelMatches("10.2.1_2024-06-01-01", "2024000001_build.zip")
  {
    DateSuffixedVersionNumber();
    SampleLabels();
    var other: string := "1021000001";
    assert other[..4][0] != "2024"[0];
  }

  lemma SampleLabels()
    ensures ReleaseFileName("1021000001_build.zip") == "1021000001"
    ensures ReleaseFileName("2024000001_build.zip") == "2024000001"
  {
    var other: string := "1021000001";
    assert '.' !in other && '_' !in other by {
      assert forall i :: 0 <= i < |other| ==> other[i] != '.' && other[i] != '_';
    }
    LabelOf(other);
    assert other + "_build.zip" == "1021000001_build.zip";
    var same: string := "2024000001";
    assert '.' !in same && '_' !in same by {
      assert forall i :: 0 <= i < |same| ==> same[i] != '.' && same[i] != '_';
    }
    LabelOf(same);
    assert same + "_build.zip" == "2024000001_build.zip";
  }

  /** The label of "<stem>_build.zip" is the stem, for any stem without `.` or `_`. */
  lemma LabelOf(stem: string)
    requires '.' !in stem && '_' !in stem
    ensures ReleaseFileName(stem + "_build.zip") == stem
  {
    FirstPieceOf(stem + "_build", "zip", '.');
    assert stem + "_build" + ['.'] + "zip" == stem + "_build.zip";
    FirstPieceOf(stem, "build", '_');
    assert stem + ['_'] + "build" == stem + "_build";
  }
}
