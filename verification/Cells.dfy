/** Memory cells; a cell that has not been written holds zero. */
module Cells {

  type Memory = map<int, int>

  function Read(mem: Memory, address: int): int {
    if address in mem then mem[address] else 0
  }
}
