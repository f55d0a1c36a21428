/** The ADO.NET driver as the engine sees it: a connection answers commands, a
    command is text, a command type, an optional transaction and a parameter
    list, and a row is a sequence of named column values. */
module Driver {
  import opened Outcomes
  import opened Values

  datatype CommandType = Text | StoredProcedure | TableDirect

  datatype Transaction = Transaction(id: nat)

  /** An IDbDataParameter: its name and value. */
  datatype Parameter = Parameter(name: string, value: Value)

  /** One field of an IDataRecord: GetName(i) and GetValue(i). */
  datatype Column = Column(name: string, value: Value)

  type Row = seq<Column>

  /** What an IDbCommand carries when it is executed. */
  datatype CommandData = CommandData(
    text: Option<string>,
    commandType: CommandType,
    transaction: Option<Transaction>,
    parameters: seq<Parameter>)

  /** An open IDbConnection: what the database answers to ExecuteNonQuery and
      which rows ExecuteReader yields for a command. */
  datatype Connection = Connection(nonQuery: CommandData -> int, reader: CommandData -> seq<Row>)

  /** An IDbCommand: the engine sets its text, type and transaction and appends parameters. */
  class Command {
    var text: Option<string>
    var commandType: CommandType
    var transaction: Option<Transaction>
    var parameters: seq<Parameter>

    /** IDbConnection.CreateCommand(): an empty text command. */
    constructor ()
      ensures text.None? && commandType == Text && transaction.None? && parameters == []
    {
      text := None;
      commandType := Text;
      transaction := None;
      parameters := [];
    }

    function Data(): CommandData
      reads this
    {
      CommandData(text, commandType, transaction, parameters)
    }

    /** command.Parameters.Add(parameter) */
    method AddParameter(p: Parameter)
      modifies this
      ensures parameters == old(parameters) + [p]
      ensures text == old(text) && commandType == old(commandType) && transaction == old(transaction)
    {
      parameters := parameters + [p];
    }
  }
}
