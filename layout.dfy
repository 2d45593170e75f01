/**
 * The file layout of a benchmark run: the names `PathMaker`
 * (benchmark/benchmark/utils.py) hands out. That class is not part of this
 * model, so its answers are parameters.
 */
module Layout {
  datatype PathMaker = PathMaker(
    resultsPath: string,
    logsPath: string,
    binaryPath: string,
    syncerFile: string,
    keyFile: nat -> string,
    tKeyFile: string,
    tTestdataFile: string,
    committeeFile: string,
    parametersFile: string,
    syncerLogFile: string,
    primaryLogFile: nat -> string)
}
