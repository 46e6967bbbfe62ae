/** The identity shared by the stores and the guards: the `_id` of an account,
    which a token carries as `userId` and the orders, the archive and the
    feedbacks record as their `user`. */
module Accounts {
  type UserId = nat
}
