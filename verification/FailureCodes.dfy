/** safeCode of internal/agent/credentials.go: which texts may be stored as the code of a failure. */
module FailureCodes {
  import opened CertStore

  const KNOWN_CODES := ["activation_failed", "agent_stage_failed", "auth_mode_mismatch", "ca_unavailable",
                        "expiry_unavailable", "internal_error", "invalid_auth_mode", "invalid_csr",
                        "invalid_request", "invalid_server", "prepare_failed", "recovery_failed",
                        "resume_failed", "rotation_in_progress", "send_failed", "server_inactive", "unknown"]

  predicate IsKnown(code: string) {
    code in KNOWN_CODES
  }

  /** At most `room` of the letters, digits, underscores and hyphens of a code. */
  function Cleaned(code: string, room: nat): string {
    if code == "" || room == 0 then ""
    else if IsIdChar(code[0]) then [code[0]] + Cleaned(code[1..], room - 1)
    else Cleaned(code[1..], room)
  }

  /** A code that is not one of the known ones is stored as unknown. */
  function SafeCode(code: string): string {
    if IsKnown(Cleaned(code, 100)) then Cleaned(code, 100) else "unknown"
  }

  /** Cleaning keeps a text of identifier characters that has room. */
  lemma {:induction false} CleanedKeeps(code: string, room: nat)
    requires |code| <= room && forall i :: 0 <= i < |code| ==> IsIdChar(code[i])
    ensures Cleaned(code, room) == code
  {
    if code != "" {
      CleanedKeeps(code[1..], room - 1);
      assert code == [code[0]] + code[1..];
    }
  }

  /** Every stored code is a known one, and known codes are stored as they are. */
  lemma SafeCodesAreKnown(code: string)
    ensures IsKnown(SafeCode(code))
    ensures IsKnown(code) ==> SafeCode(code) == code
  {
    assert KNOWN_CODES[16] == "unknown";
    if IsKnown(code) {
      var i :| 0 <= i < |KNOWN_CODES| && KNOWN_CODES[i] == code;
      KnownCodesAreClean(i);
      CleanedKeeps(code, 100);
    }
  }

  lemma KnownCodesAreClean(i: nat)
    requires i < |KNOWN_CODES|
    ensures |KNOWN_CODES[i]| <= 100 && forall j :: 0 <= j < |KNOWN_CODES[i]| ==> IsIdChar(KNOWN_CODES[i][j])
  {
  }

  /** Other characters in a code do not matter. */
  lemma {:induction false} JunkIsCleaned(left: string, c: char, right: string, room: nat)
    requires !IsIdChar(c)
    ensures Cleaned(left + ([c] + right), room) == Cleaned(left + right, room)
  {
    if left == "" {
      assert left + ([c] + right) == [c] + right && left + right == right;
      assert ([c] + right)[1..] == right;
      NoRoom(right);
    } else {
      assert (left + ([c] + right))[1..] == left[1..] + ([c] + right);
      assert (left + right)[1..] == left[1..] + right;
      JunkIsCleaned(left[1..], c, right, if room > 0 then room - 1 else 0);
      JunkIsCleaned(left[1..], c, right, room);
    }
  }

  lemma NoRoom(code: string)
    ensures Cleaned(code, 0) == ""
  {
  }
}
