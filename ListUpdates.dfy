/** Values shared by the accumulator and the section reconciler: the edit
    script vocabulary and the update record that carries a snapshot with it. */
module ListUpdates {

  datatype Option<+T> = None | Some(value: T)

  /** One structural edit of an observable list. Indices are positions:
      `Insert` in the new list, `Delete` in the old one, `Move` from/to.
      `Reload` means no incremental script is known. */
  datatype Change = Insert(index: nat) | Delete(index: nat) | Move(from: nat, to: nat) | Reload

  /** A full snapshot of the list together with the edit script that leads
      to it from the previous update. */
  datatype Update<T> = Update(list: seq<T>, changes: seq<Change>)

  /** The shape every emitted update keeps: a lone `Reload`, or no `Reload`. */
  predicate ReloadExclusive(changes: seq<Change>)
  {
    changes == [Reload] || Reload !in changes
  }
}
