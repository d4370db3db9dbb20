/** The application's database: one table per model, each keyed by its integer primary key.
    The question table is a sequence of rows in primary-key order, the order the selector's
    ties and the importer's duplicate scan follow. */
module Store {
  import opened UserModel
  import opened WithdrawalModel
  import opened SubscriptionModel
  import opened QuizModel

  class Db {
    var users: map<int, User>
    var withdrawals: map<int, WithdrawalRequest>
    var subscriptions: map<int, Subscription>
    var earnings: map<int, ReferralEarning>
    var questions: seq<Question>
    var choices: map<int, Choice>
    var sessions: map<int, QuizSession>
    var answers: map<int, UserAnswer>

    /** An empty database. */
    constructor ()
      ensures users == map[] && withdrawals == map[] && subscriptions == map[] && earnings == map[]
      ensures questions == [] && choices == map[] && sessions == map[] && answers == map[]
    {
      users := map[];
      withdrawals := map[];
      subscriptions := map[];
      earnings := map[];
      questions := [];
      choices := map[];
      sessions := map[];
      answers := map[];
    }
  }
}
