/**
 * Channel / board addressing: 32 boards with 4 channels each, channels
 * numbered 1..128 globally.  Channel (board, offset) = (board-1)*4+offset+1,
 * and board(channel) = ((channel-1)/4)+1.
 */
module Addressing {

  const BoardCount := 32
  const ChannelsPerBoard := 4
  const ChannelCount := 128

  /** Global number of the channel in slot `offset` (0-based) of `board`. */
  function ChannelOf(board: int, offset: int): int
  {
    4 * (board - 1) + offset + 1
  }

  /**
   * The board that serves `channel`.  C# integer division truncates toward
   * zero; for channel >= 1 the dividend is not negative, so it agrees with
   * Dafny's division.
   */
  function BoardOf(channel: int): int
    requires channel >= 1
  {
    (channel - 1) / ChannelsPerBoard + 1
  }

  /** The 0-based slot of `channel` on its board. */
  function SlotOf(channel: int): int
    requires channel >= 1
  {
    (channel - 1) % ChannelsPerBoard
  }

  predicate ValidChannel(channel: int)
  {
    1 <= channel <= ChannelCount
  }

  /** Every valid channel lives on one of the 32 boards; 1 is on board 1 and 128 on board 32. */
  lemma BoardOfRange(channel: int)
    requires ValidChannel(channel)
    ensures 1 <= BoardOf(channel) <= BoardCount
    ensures 0 <= SlotOf(channel) < ChannelsPerBoard
    ensures BoardOf(1) == 1 && BoardOf(ChannelCount) == BoardCount
  {
  }

  /** BoardOf and SlotOf invert ChannelOf. */
  lemma BoardOfChannelOf(board: int, offset: int)
    requires board >= 1 && 0 <= offset < ChannelsPerBoard
    ensures ChannelOf(board, offset) >= 1
    ensures BoardOf(ChannelOf(board, offset)) == board
    ensures SlotOf(ChannelOf(board, offset)) == offset
  {
    var c := ChannelOf(board, offset);
    assert c - 1 == (board - 1) * ChannelsPerBoard + offset;
  }

  /** ChannelOf inverts (BoardOf, SlotOf). */
  lemma ChannelOfBoardOf(channel: int)
    requires channel >= 1
    ensures ChannelOf(BoardOf(channel), SlotOf(channel)) == channel
  {
  }

  /** The 32 x 4 (board, slot) pairs cover the channels 1..128, each exactly once. */
  lemma ChannelsCoverOnce(board: int, offset: int, board': int, offset': int)
    requires 1 <= board <= BoardCount && 0 <= offset < ChannelsPerBoard
    requires 1 <= board' <= BoardCount && 0 <= offset' < ChannelsPerBoard
    ensures ValidChannel(ChannelOf(board, offset))
    ensures ChannelOf(board, offset) == ChannelOf(board', offset') <==> board == board' && offset == offset'
  {
    if ChannelOf(board, offset) == ChannelOf(board', offset') {
      BoardOfChannelOf(board, offset);
      BoardOfChannelOf(board', offset');
    }
  }
}
