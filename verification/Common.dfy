/** The sizes and opcodes that clients and broker share. */
module Common {
  import opened Bytes

  const PIPE_LENGTH := 255 // CLIENT_NAMED_PIPE_PATH_LENGTH
  const BOX_NAME_LENGTH := 31
  const MESSAGE_LENGTH := 1023
  const MAX_BOXES := 64
  const BOX_SIZE := 16384

  const REGIST_PUB: byte := 1
  const REGIST_SUB: byte := 2
  const CREATE_BOX: byte := 3
  const REMOVE_BOX: byte := 5
  const LIST_BOXES: byte := 7
  const LIST_BOXES_ANSWER: byte := 8
}
