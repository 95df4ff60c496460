// BluStream's error codes: the numbered enumerators grouped in thousands
// by category, their fixed texts, the "[code] text: message" format, and
// the exception that carries a code and a message and formats them once.

module ErrorCodes {
  import opened CommandLine
  import opened Wrappers

  /** ErrorCode's underlying type; a value outside the enumerators can still be stored in it. */
  type int32 = x: int | -0x8000_0000 <= x < 0x8000_0000

  const Success: int32 := 0
  const UnknownError: int32 := 1000
  const InvalidParameter: int32 := 1001
  const OutOfMemory: int32 := 1002
  const NotImplemented: int32 := 1003
  const Timeout: int32 := 1004
  const AuthFailed: int32 := 2000
  const InvalidToken: int32 := 2001
  const TokenExpired: int32 := 2002
  const Unauthorized: int32 := 2003
  const SessionNotFound: int32 := 3000
  const SessionAlreadyExists: int32 := 3001
  const SessionLimitExceeded: int32 := 3002
  const SessionTerminated: int32 := 3003
  const VdsLoadFailed: int32 := 4000
  const VdsNotFound: int32 := 4001
  const VdsCorrupted: int32 := 4002
  const HueSpaceInitFailed: int32 := 4003
  const RenderFailed: int32 := 4004
  const WebRtcInitFailed: int32 := 5000
  const EncodingFailed: int32 := 5001
  const DecodingFailed: int32 := 5002
  const NetworkError: int32 := 5003
  const PeerConnectionFailed: int32 := 5004
  const CudaError: int32 := 6000
  const OpenGlError: int32 := 6001
  const NvencError: int32 := 6002
  const GpuNotAvailable: int32 := 6003
  const ClientDisconnected: int32 := 7000
  const ClientVersionMismatch: int32 := 7001
  const InputEventInvalid: int32 := 7002
  const DisplayError: int32 := 7003

  datatype Category = SuccessCategory | General | Authentication | Sessions | Vds | Streaming | Hardware | Client

  /** The enumerators in declaration order, each with the category its comment in the header gives it. */
  const Enumerators: seq<(int32, Category)> := [
    (Success, SuccessCategory),
    (UnknownError, General), (InvalidParameter, General), (OutOfMemory, General), (NotImplemented, General), (Timeout, General),
    (AuthFailed, Authentication), (InvalidToken, Authentication), (TokenExpired, Authentication), (Unauthorized, Authentication),
    (SessionNotFound, Sessions), (SessionAlreadyExists, Sessions), (SessionLimitExceeded, Sessions), (SessionTerminated, Sessions),
    (VdsLoadFailed, Vds), (VdsNotFound, Vds), (VdsCorrupted, Vds), (HueSpaceInitFailed, Vds), (RenderFailed, Vds),
    (WebRtcInitFailed, Streaming), (EncodingFailed, Streaming), (DecodingFailed, Streaming), (NetworkError, Streaming),
    (PeerConnectionFailed, Streaming),
    (CudaError, Hardware), (OpenGlError, Hardware), (NvencError, Hardware), (GpuNotAvailable, Hardware),
    (ClientDisconnected, Client), (ClientVersionMismatch, Client), (InputEventInvalid, Client), (DisplayError, Client)
  ]

  /** The enumerators' values. */
  const Codes: set<int32> := {0, 1000, 1001, 1002, 1003, 1004, 2000, 2001, 2002, 2003, 3000, 3001, 3002, 3003, 4000, 4001, 4002, 4003, 4004, 5000, 5001, 5002, 5003, 5004, 6000, 6001, 6002, 6003, 7000, 7001, 7002, 7003}

  /** The thousand a category's codes are numbered in. */
  function Thousand(c: Category): nat
  {
    match c
    case SuccessCategory => 0
    case General => 1
    case Authentication => 2
    case Sessions => 3
    case Vds => 4
    case Streaming => 5
    case Hardware => 6
    case Client => 7
  }

  /** Each enumerator lies in its category's thousand, and SUCCESS is 0. */
  lemma EnumeratorCategories()
    ensures Enumerators[0] == (0, SuccessCategory)
    ensures forall i :: 0 <= i < |Enumerators| ==> Enumerators[i].0 / 1000 == Thousand(Enumerators[i].1)
  {
  }

  /** The codes strictly increase in declaration order. */
  lemma EnumeratorsIncrease()
    ensures forall i :: 0 < i < |Enumerators| ==> Enumerators[i - 1].0 < Enumerators[i].0
  {
  }

  lemma EnumeratorsAreCodes()
    ensures forall i :: 0 <= i < |Enumerators| ==> Enumerators[i].0 in Codes
  {
  }

  /** Strictly increasing codes are pairwise distinct: no two enumerators share a value. */
  lemma {:induction false} EnumeratorsDistinct(n: nat)
    requires n <= |Enumerators|
    ensures forall i, j :: 0 <= i < j < n ==> Enumerators[i].0 < Enumerators[j].0
  {
    if n > 0 {
      EnumeratorsDistinct(n - 1);
      EnumeratorsIncrease();
      forall i | 0 <= i < n - 1
        ensures Enumerators[i].0 < Enumerators[n - 1].0
      {
        if i < n - 2 {
          assert Enumerators[i].0 < Enumerators[n - 2].0;
        }
      }
    }
  }

  predicate IsEnumerator(code: int32)
  {
    code in Codes
  }

  const UnknownCodeText := "Unknown error code"

  /** error_code_to_string. */
  function ErrorText(code: int32): string
  {
    match code
    case 0 => "Success"
    case 1000 => "Unknown error"
    case 1001 => "Invalid parameter"
    case 1002 => "Out of memory"
    case 1003 => "Not implemented"
    case 1004 => "Timeout"
    case 2000 => "Authentication failed"
    case 2001 => "Invalid token"
    case 2002 => "Token expired"
    case 2003 => "Unauthorized"
    case 3000 => "Session not found"
    case 3001 => "Session already exists"
    case 3002 => "Session limit exceeded"
    case 3003 => "Session terminated"
    case 4000 => "VDS load failed"
    case 4001 => "VDS not found"
    case 4002 => "VDS corrupted"
    case 4003 => "HueSpace initialization failed"
    case 4004 => "Render failed"
    case 5000 => "WebRTC initialization failed"
    case 5001 => "Encoding failed"
    case 5002 => "Decoding failed"
    case 5003 => "Network error"
    case 5004 => "Peer connection failed"
    case 6000 => "CUDA error"
    case 6001 => "OpenGL error"
    case 6002 => "NVENC error"
    case 6003 => "GPU not available"
    case 7000 => "Client disconnected"
    case 7001 => "Client version mismatch"
    case 7002 => "Input event invalid"
    case 7003 => "Display error"
    case _ => UnknownCodeText
  }

  /** Every enumerator has a text of its own; exactly the other values get the unknown-code text. */
  lemma ErrorTextTable(code: int32)
    ensures ErrorText(code) == UnknownCodeText <==> !IsEnumerator(code)
  {
  }

  /** "[" + code + "] " + text, then ": " + message unless the message is empty. */
  function FormatWith(code: int32, text: string, message: string): string
  {
    "[" + IntText(code) + "] " + text + (if message == "" then "" else ": " + message)
  }

  /** format_error: the code's number and text, then the message if there is one. */
  function FormatError(code: int32, message: string): string
  {
    FormatWith(code, ErrorText(code), message)
  }

  lemma Reassociate(a: string, b: string, c: string, d: string, e: string)
    ensures a + b + c + d + e == a + (b + (c + d + e))
  {
  }

  lemma DropFirst(c: char, t: string)
    ensures ([c] + t)[1..] == t
  {
  }

  /** A formatted error starts with "[" and the code, which reads back up to the closing bracket. */
  lemma FormatHead(code: int32, text: string, message: string)
    ensures var f := FormatWith(code, text, message); |f| > 0 && f[0] == '[' && Atoi(f[1..]) == code
  {
    var tail := if message == "" then "" else ": " + message;
    var rest := "] " + text + tail;
    Reassociate("[", IntText(code), "] ", text, tail);
    DropFirst('[', IntText(code) + rest);
    AtoiOfText(code, rest);
  }

  /** With a message, the formatted error ends in ": " + message; without one it ends in the text. */
  lemma FormatTail(code: int32, text: string, message: string)
    ensures message == "" ==> FormatWith(code, text, message) == "[" + IntText(code) + "] " + text
    ensures message != "" ==>
      var f := FormatWith(code, text, message);
      |f| >= |message| + 2 && f[|f| - |message| - 2..] == ": " + message
  {
    var head := "[" + IntText(code) + "] " + text;
    if message == "" {
      assert FormatWith(code, text, message) == head + "";
    } else {
      assert FormatWith(code, text, message) == head + (": " + message);
    }
  }

  /**
   * The formatted error names its code, which reads back from just after
   * the bracket, and ends with the message after ": " when there is one.
   */
  lemma FormatErrorParts(code: int32, message: string)
    ensures |FormatError(code, message)| > 0 && FormatError(code, message)[0] == '['
    ensures Atoi(FormatError(code, message)[1..]) == code
    ensures message == "" ==> FormatError(code, message) == "[" + IntText(code) + "] " + ErrorText(code)
    ensures message != "" ==>
      var f := FormatError(code, message);
      |f| >= |message| + 2 && f[|f| - |message| - 2..] == ": " + message
  {
    FormatHead(code, ErrorText(code), message);
    FormatTail(code, ErrorText(code), message);
  }

  /**
   * BluStreamException: the code and message it was built with, and the
   * text what() formats on its first call and keeps.
   */
  class BluStreamException {
    const code: int32
    const message: string
    var formatted: string

    /** The cache is empty or holds the formatted error. */
    ghost predicate Valid()
      reads this`formatted
    {
      formatted == "" || formatted == FormatError(code, message)
    }

    /** The message defaults to "" in the header; callers pass it explicitly here. */
    constructor(code: int32, message: string)
      ensures this.code == code && this.message == message && formatted == ""
      ensures Valid()
    {
      this.code := code;
      this.message := message;
      formatted := "";
    }

    /** what(): the formatted error, computed on the first call and returned from the cache afterwards. */
    method What() returns (text: string)
      requires Valid()
      modifies this`formatted
      ensures Valid()
      ensures text == FormatError(code, message) && formatted == text
      ensures old(formatted) != "" ==> formatted == old(formatted)
    {
      if formatted == "" {
        formatted := FormatError(code, message);
      }
      text := formatted;
    }
  }

  /** A second what() returns the same text without formatting again: the first call leaves the cache non-empty. */
  lemma FormattedNeverEmpty(code: int32, message: string)
    ensures FormatError(code, message) != ""
  {
    FormatErrorParts(code, message);
  }
}
