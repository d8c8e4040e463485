/** The command message of the stream-switching protocol (mqas/core/def.h). */
module VariantMsg {
  import opened Bytes
  import SimplePkg

  const EXTRA_PARAMS_MAX_SIZE: nat := SimplePkg.PARAMS_MAX_SIZE - 13

  // enum class stream_variant_cmd
  const REQ_USE_STREAM_TAG: u8 := 1
  const REQ_QUIT_HOLD_STREAM: u8 := 2

  // enum class StreamVariantErrcode
  const OK: u8 := 0
  const SKIP_AND_MANUAL: u8 := 1
  const FAILED_NOT_FIND: u8 := 2
  const PARSE_FAILED: u8 := 3
  const NOT_SUPPORT: u8 := 4
  const TAG_NOT_EQ: u8 := 5
  const FAILED: u8 := 6
  const INCORRECT_STATE: u8 := 7

  datatype Msg = Msg(cmd: u8, param1: u32, param2: u16, param3: u8, errcode: u8, extra: seq<u8>)
  {
    predicate IsAck() { param3 == 1 }

    // The answer `on_read` builds in place out of a request.
    function Answer(code: u8, reply: seq<u8>): Msg { this.(param3 := 1, errcode := code, extra := reply) }
  }

  function ChangeRequest(tag: u32, params: seq<u8>): Msg { Msg(REQ_USE_STREAM_TAG, tag, 0, 0, OK, params) }

  function QuitRequest(tag: u32, params: seq<u8>): Msg { Msg(REQ_QUIT_HOLD_STREAM, tag, 0, 0, OK, params) }
}
