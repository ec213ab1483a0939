/** The validators of a network run: n = 3f + 1 of them, at most f arbitrary. */
module Worlds {
  import opened Validators

  datatype World = World(set_: ValidatorSet, byzantine: set<Id>)

  // Any number of validators, few enough of them arbitrary.
  ghost predicate FewFaulty(w: World) {
    Distinct(w.set_) && |w.byzantine| <= MaxFaulty(|w.set_|)
  }

  ghost predicate GoodWorld(w: World) {
    FewFaulty(w) && |w.set_| % 3 == 1
  }

  ghost predicate Honest(w: World, i: Id) {
    i in w.set_ && i !in w.byzantine
  }
}
