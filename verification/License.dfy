/**
 * Accepting the EULA: the literal rewrite of "eula=false" to "eula=true"
 * in eula.txt, done only when the server's first run has created the file.
 */
module License {
  import opened Wrappers
  import opened Strings

  const EulaDeclined := "eula=false"
  const EulaAccepted := "eula=true"

  /** The rewrite `setup_server` applies to the text of eula.txt. */
  function AcceptEula(content: string): string
  {
    Replace(content, EulaDeclined, EulaAccepted)
  }

  /**
   * The EULA step of `setup_server`: when eula.txt exists (`Some`) its text
   * is rewritten and written back; when it does not, nothing is written.
   */
  function RewriteEulaFile(existing: Option<string>): (written: Option<string>)
    ensures existing.None? <==> written.None?
    ensures existing.Some? ==> written == Some(AcceptEula(existing.value))
    ensures existing.Some? && !Contains(existing.value, EulaDeclined) ==> written == existing
  {
    match existing
    case None => None
    case Some(content) =>
      var accepted := AcceptEula(content);
      assert !Contains(content, EulaDeclined) ==> accepted == content by {
        if !Contains(content, EulaDeclined) {
          ReplaceAbsent(content, EulaDeclined, EulaAccepted);
        }
      }
      Some(accepted)
  }

  /** An accepted file, or any text without "eula=false", is left as it is. */
  lemma AcceptEulaNoOp(content: string)
    requires !Contains(content, EulaDeclined)
    ensures AcceptEula(content) == content
  {
    ReplaceAbsent(content, EulaDeclined, EulaAccepted);
  }

  /** The exact text "eula=false" becomes "eula=true". */
  lemma AcceptEulaFlipsFlag()
    ensures AcceptEula("eula=false") == "eula=true"
  {
    ReplaceFirstMatch([], EulaDeclined, [], EulaAccepted);
    assert [] + EulaDeclined + [] == EulaDeclined;
    assert [] + EulaAccepted + [] == EulaAccepted;
  }

  /**
   * A file whose only flag line is "eula=false", with no earlier match, has
   * that flag and nothing else changed.
   */
  lemma AcceptEulaSingleFlag(header: string, trailer: string)
    requires forall i: nat :: i < |header| ==> !OccursAt(header + EulaDeclined + trailer, EulaDeclined, i)
    requires !Contains(trailer, EulaDeclined)
    ensures AcceptEula(header + EulaDeclined + trailer) == header + EulaAccepted + trailer
  {
    ReplaceFirstMatch(header, EulaDeclined, trailer, EulaAccepted);
    ReplaceAbsent(trailer, EulaDeclined, EulaAccepted);
  }

  /** Every flag is rewritten, not only the first: two flag lines both become "eula=true". */
  lemma AcceptEulaEveryFlag()
    ensures AcceptEula(EulaDeclined + "\n" + EulaDeclined) == EulaAccepted + "\n" + EulaAccepted
  {
    ReplaceFirstMatch([], EulaDeclined, "\n" + EulaDeclined, EulaAccepted);
    assert [] + EulaDeclined + ("\n" + EulaDeclined) == EulaDeclined + "\n" + EulaDeclined;
    assert !OccursAt("\n" + EulaDeclined + [], EulaDeclined, 0) by {
      assert ("\n" + EulaDeclined + [])[0] == '\n';
    }
    ReplaceFirstMatch("\n", EulaDeclined, [], EulaAccepted);
    assert "\n" + EulaDeclined + [] == "\n" + EulaDeclined;
    assert Replace([], EulaDeclined, EulaAccepted) == [];
    assert [] + EulaAccepted + ("\n" + EulaAccepted + []) == EulaAccepted + "\n" + EulaAccepted;
  }

  /**
   * The rewrite is not idempotent in general. In "eula=falseula=false" the
   * 'e' ending the first flag begins a second one; the scan resumes after
   * the first match and skips it, giving "eula=trueula=false", and only a
   * second run, which now finds "eula=false" at index 8, turns it into
   * "eula=trueula=true".
   */
  lemma AcceptEulaNotIdempotent()
    ensures AcceptEula(EulaDeclined + EulaDeclined[1..]) == EulaAccepted + EulaDeclined[1..]
    ensures AcceptEula(EulaAccepted + EulaDeclined[1..]) == EulaAccepted + EulaAccepted[1..]
  {
    ReplaceSkipsOverlap();
    ReplaceFindsShiftedFlag();
  }

  lemma ReplaceSkipsOverlap()
    ensures Replace(EulaDeclined + EulaDeclined[1..], EulaDeclined, EulaAccepted)
            == EulaAccepted + EulaDeclined[1..]
  {
    var tail := EulaDeclined[1..];
    assert !Contains(tail, EulaDeclined) by {
      forall i: nat | i <= |tail| ensures !OccursAt(tail, EulaDeclined, i) {}
    }
    ReplaceFirstMatch([], EulaDeclined, tail, EulaAccepted);
    ReplaceAbsent(tail, EulaDeclined, EulaAccepted);
    assert [] + EulaDeclined + tail == EulaDeclined + tail;
  }

  lemma ReplaceFindsShiftedFlag()
    ensures Replace(EulaAccepted + EulaDeclined[1..], EulaDeclined, EulaAccepted)
            == EulaAccepted + EulaAccepted[1..]
  {
    var head := EulaAccepted[..8];
    var once := EulaAccepted + EulaDeclined[1..];
    assert once == head + EulaDeclined + [];
    assert !Contains([], EulaDeclined) by {
      forall i: nat | i <= 0 ensures !OccursAt([], EulaDeclined, i) {}
    }
    assert 'e' !in EulaDeclined[1..9];
    forall i: nat | i < |head| ensures !OccursAt(once, EulaDeclined, i) {
      assert once[i + 9] == EulaDeclined[1..9][i];
      assert once[i + 9] != EulaDeclined[9];
    }
    ReplaceFirstMatch(head, EulaDeclined, [], EulaAccepted);
    assert head + EulaAccepted + [] == EulaAccepted + EulaAccepted[1..];
  }
}
