/** The bearer-token gate (src/middleware/auth.ts), as a pure decision over
    the configured secret and the `Authorization` header. */
module Auth {
  import opened Wrappers

  const MissingHeaderMessage := "Missing Authorization header"
  const BadFormatMessage := "Invalid Authorization header format"
  const BadTokenMessage := "Invalid bearer token"
  const Scheme := "Bearer"

  datatype Decision = Pass | Reject(status: int, message: string)

  // ---------------------------------------------------------------------
  // String.prototype.split(" ")

  /** Position of the first space, or `|s|` when there is none. */
  function IndexOfSpace(s: string): (i: nat)
    ensures i <= |s|
    ensures i < |s| ==> s[i] == ' '
  {
    if |s| == 0 || s[0] == ' ' then 0 else 1 + IndexOfSpace(s[1..])
  }

  /** No space comes before the position `IndexOfSpace` finds. */
  lemma {:induction false} NoSpaceBefore(s: string)
    ensures forall j :: 0 <= j < IndexOfSpace(s) ==> s[j] != ' '
    decreases |s|
  {
    if |s| > 0 && s[0] != ' ' {
      NoSpaceBefore(s[1..]);
    }
  }

  /** `s.split(" ")`: the pieces between single spaces, empty ones included;
      the empty string splits into one empty piece. */
  function Split(s: string): (pieces: seq<string>)
    ensures |pieces| >= 1
    ensures pieces[0] == s[..IndexOfSpace(s)]
    decreases |s|
  {
    var i := IndexOfSpace(s);
    if i == |s| then [s] else [s[..i]] + Split(s[i + 1..])
  }

  /** No piece contains a space, and there is more than one piece exactly
      when the string contains a space. */
  lemma {:induction false} SplitPieces(s: string)
    ensures forall k :: 0 <= k < |Split(s)| ==> ' ' !in Split(s)[k]
    ensures |Split(s)| > 1 <==> ' ' in s
    decreases |s|
  {
    var i := IndexOfSpace(s);
    if i < |s| {
      var rest := s[i + 1..];
      SplitPieces(rest);
      NoSpaceBefore(s);
      assert Split(s) == [s[..i]] + Split(rest);
      assert ' ' !in s[..i];
    } else {
      NoSpaceBefore(s);
      assert Split(s) == [s];
      assert ' ' !in s;
    }
  }

  /** `pieces.join(" ")`. */
  function Join(pieces: seq<string>): string
    requires |pieces| >= 1
  {
    if |pieces| == 1 then pieces[0] else pieces[0] + " " + Join(pieces[1..])
  }

  lemma JoinCons(a: string, pieces: seq<string>)
    requires |pieces| >= 1
    ensures Join([a] + pieces) == a + " " + Join(pieces)
  {
    assert ([a] + pieces)[1..] == pieces;
  }

  lemma Reassemble(s: string, i: nat)
    requires i < |s| && s[i] == ' '
    ensures s[..i] + " " + s[i + 1..] == s
  {
  }

  /** Splitting loses nothing: joining the pieces gives the header back. */
  lemma {:induction false} JoinSplit(s: string)
    ensures Join(Split(s)) == s
    decreases |s|
  {
    var i := IndexOfSpace(s);
    if i < |s| {
      var rest := s[i + 1..];
      JoinSplit(rest);
      JoinCons(s[..i], Split(rest));
      Reassemble(s, i);
    }
  }

  // ---------------------------------------------------------------------
  // bearerAuth

  /** `!expectedToken`: no secret configured, so authentication is off. */
  predicate Disabled(secret: Option<string>) {
    secret.None? || secret.value == ""
  }

  /** The second piece of the header, `undefined` when there is none. */
  function SecondPiece(header: string): Option<string> {
    var pieces := Split(header);
    if |pieces| > 1 then Some(pieces[1]) else None
  }

  /** `bearerAuth`: `Pass` is `next()`, `Reject` is the 401 JSON reply. */
  function BearerAuth(secret: Option<string>, header: Option<string>): (d: Decision)
    ensures d.Reject? ==> d.status == 401
    ensures Disabled(secret) ==> d == Pass
    ensures !Disabled(secret) && (header.None? || header.value == "") ==>
      d == Reject(401, MissingHeaderMessage)
    ensures !Disabled(secret) && header.Some? && header.value != "" ==>
      var token := SecondPiece(header.value);
      && (Split(header.value)[0] != Scheme || token.None? || token.value == "" ==>
            d == Reject(401, BadFormatMessage))
      && (Split(header.value)[0] == Scheme && token.Some? && token.value != "" ==>
            (d == Pass <==> token.value == secret.value)
            && (d.Reject? ==> d.message == BadTokenMessage))
  {
    if Disabled(secret) then Pass
    else if header.None? || header.value == "" then Reject(401, MissingHeaderMessage)
    else
      var pieces := Split(header.value);
      var scheme := pieces[0];
      var token := SecondPiece(header.value);
      if scheme != Scheme || token.None? || token.value == "" then Reject(401, BadFormatMessage)
      else if token.value != secret.value then Reject(401, BadTokenMessage)
      else Pass
  }

  /** A header that presents `secret`: "Bearer ", then the secret, then the
      end of the header or a space (whatever follows is ignored). */
  predicate PresentsCredential(header: string, secret: string) {
    var prefix := Scheme + " " + secret;
    && |header| >= |prefix|
    && header[..|prefix|] == prefix
    && (|header| == |prefix| || header[|prefix|] == ' ')
  }

  lemma IndexOfSpaceIs(s: string, k: nat)
    requires k <= |s|
    requires k < |s| ==> s[k] == ' '
    requires forall j :: 0 <= j < k ==> s[j] != ' '
    ensures IndexOfSpace(s) == k
  {
    NoSpaceBefore(s);
  }

  /** The second piece is the text between the first and second space. */
  lemma SecondPieceIs(h: string)
    ensures var i := IndexOfSpace(h);
      i < |h| ==>
        var rest := h[i + 1..];
        SecondPiece(h) == Some(rest[..IndexOfSpace(rest)])
  {
  }

  lemma PassPresents(s: string, h: string)
    requires s != "" && h != ""
    requires BearerAuth(Some(s), Some(h)) == Pass
    ensures ' ' !in s && PresentsCredential(h, s)
  {
    var prefix := Scheme + " " + s;
    var i := IndexOfSpace(h);
    assert h[..i] == Scheme;
    assert i == 6;
    assert ' ' in h;
    var rest := h[7..];
    SecondPieceIs(h);
    var j := IndexOfSpace(rest);
    NoSpaceBefore(rest);
    assert rest[..j] == s;
    assert h[..7] == Scheme + " ";
    assert h[7..7 + j] == s;
    assert h[..7 + j] == h[..7] + h[7..7 + j];
  }

  lemma PresentsPass(s: string, h: string)
    requires s != "" && ' ' !in s && PresentsCredential(h, s)
    ensures BearerAuth(Some(s), Some(h)) == Pass
  {
    var prefix := Scheme + " " + s;
    assert h[..6] == Scheme by { assert h[..6] == prefix[..6]; }
    assert h[6] == ' ' by { assert h[6] == prefix[6]; }
    IndexOfSpaceIs(h, 6);
    var rest := h[7..];
    assert rest[..|s|] == s by { assert rest[..|s|] == h[..|prefix|][7..]; }
    forall j | 0 <= j < |s| ensures rest[j] != ' ' {
      assert rest[j] == s[j];
    }
    IndexOfSpaceIs(rest, |s|);
    SecondPieceIs(h);
  }

  /** The gate, independently of how the header is split: a request passes
      exactly when no secret is configured, or the secret contains no space
      and the header presents it after "Bearer ". */
  lemma BearerAuthPassIff(secret: Option<string>, header: Option<string>)
    ensures BearerAuth(secret, header) == Pass <==>
      Disabled(secret) ||
      (' ' !in secret.value && header.Some? && PresentsCredential(header.value, secret.value))
  {
    if !Disabled(secret) && header.Some? {
      if header.value == "" {
        assert !PresentsCredential(header.value, secret.value);
      } else {
        if BearerAuth(secret, header) == Pass {
          PassPresents(secret.value, header.value);
        }
        if ' ' !in secret.value && PresentsCredential(header.value, secret.value) {
          PresentsPass(secret.value, header.value);
        }
      }
    }
  }

  /** Pieces after the second are ignored: appending " " and anything to a
      passing header still passes. */
  lemma ExtraPiecesIgnored(secret: string, header: string, extra: string)
    requires BearerAuth(Some(secret), Some(header)) == Pass
    ensures BearerAuth(Some(secret), Some(header + " " + extra)) == Pass
  {
    BearerAuthPassIff(Some(secret), Some(header));
    if secret != "" {
      var prefix := Scheme + " " + secret;
      var h2 := header + " " + extra;
      assert h2[..|prefix|] == header[..|prefix|];
      assert |h2| > |prefix|;
      assert h2[|prefix|] == ' ' by {
        if |header| == |prefix| {
          assert h2[|prefix|] == (header + " ")[|prefix|];
        } else {
          assert h2[|prefix|] == header[|prefix|];
        }
      }
      BearerAuthPassIff(Some(secret), Some(h2));
    }
  }
}
