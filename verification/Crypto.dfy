/** The cryptographic libraries, as functions with the laws the protocol relies on. */
module Crypto {
  import opened Prelude

  /**
   SHA-256 of a text of ASCII characters, Ed25519, and the P-256 curve. `ecVerify` is the equation of an ECDSA
   signature (r, s) over a digest for the public point (x, y). `blank` says that a text is all white space.
   */
  datatype Library = Library(
    sha256: string -> seq<Byte>,
    edPublic: seq<Byte> -> seq<Byte>,
    edSign: (seq<Byte>, string) -> seq<Byte>,
    edVerify: (seq<Byte>, string, seq<Byte>) -> bool,
    onCurve: (nat, nat) -> bool,
    ecVerify: (nat, nat, seq<Byte>, nat, nat) -> bool,
    blank: string -> bool)

  ghost predicate Lawful(lib: Library) {
    && (forall text {:trigger lib.sha256(text)} :: |lib.sha256(text)| == 32)
    && (forall key {:trigger lib.edPublic(key)} :: |lib.edPublic(key)| == 32)
    && (forall key, message {:trigger lib.edSign(key, message)} ::
          && |lib.edSign(key, message)| == 64
          && lib.edVerify(lib.edPublic(key), message, lib.edSign(key, message)))
    && lib.blank("")
  }

  /** A big-endian number. */
  function BigEndian(bytes: seq<Byte>): nat {
    if bytes == [] then 0 else 256 * BigEndian(bytes[..|bytes| - 1]) + bytes[|bytes| - 1]
  }
}
